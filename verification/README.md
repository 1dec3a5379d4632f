# MQTT configuration-file reader

This project is a model of the configuration reader of the Cumulocity XDK agent
(`MQTTCfgParser`). At start-up the firmware reads a text file from the SD card.
Each line of the file is `NAME=value` or a `#` comment. The reader keeps a table
with one row for each of sixteen known attributes (Wi-Fi, MQTT broker, sensors,
SNTP). The rest of the firmware asks for each setting through typed accessors.
An accessor answers with the value from the file when the file defined the
attribute, and with the compiled default otherwise. After the file is read,
`MQTTCfgParser_Init` decides whether the device starts in registration mode or
in operation mode.

The modules follow the C code:

- `Schema` (`schema.dfy`) holds the header's contents: the attribute names in
  index order, `AttributesIndex_E`, the token and state enums, `ConfigLine_S`,
  the build-time defaults, and the statically initialised table. `Lookup` is the
  first-match search over the names.
- `Cursor` (`cursor.dfy`) holds the two scanning primitives `GetToken` is built
  from: skipping a set of characters, and running up to a stop character.
- `Tokenizer` (`tokenizer.dfy`) holds `GetToken`. `NextToken` is the
  specification function for one call, and `GetToken` is the imperative method
  proved equal to it. Its helper loops are proved separately: the skip loop, the
  comment loop, the copying loop and the name-matching loop.
- `Parser` (`parser.dfy`) holds the state machine of `MQTTCfgParser_Config`.
  - `Run` is the loop as a function over buffer position, state, selected row and
    table. It ends in one of three outcomes:
    - `Finished(ok, table)`;
    - `Hangs`, when a run of more than 64 characters makes the token loop spin
      forever;
    - `Overruns`, when a value longer than 49 characters overflows its slot in
      the `strcpy`.
  - A file is also described as lines (`Line`, `Render`). The `Expected` meaning
    of a file is given line by line, and `RenderedFileParses` proves that `Run`
    computes it for every well-formed file.
- `Numeric` (`numeric.dfy`) holds C's `atol`, which the integer accessors use,
  and the reader's own `itoa`. `itoa` is an in-place array algorithm: digits are
  written backwards, then the prefix is reversed. It is proved against the text
  function `ItoaText`.
- `MqttCfgParser` (`store.dfy`) holds the class `ConfigStore`: the table as an
  `array<ConfigLine>` together with the defaults it was built with. Its methods
  follow the C code:
  - `Config` and `ReadTokens` run the token loop on the array, proved equal to
    `Parse`;
  - `Reset` is the clearing loop of `Init`;
  - `ParseConfigFile`;
  - `Init` with its mode decision;
  - the sixteen `Get*`/`Is*` accessors.

  The result of the SD-card read is a parameter (`SdCardRead`).

## Model

| member | source | states |
|---|---|---|
| Schema.InitialTable | source/MQTTCfgParser.c:114-131 | the static table has sixteen rows, each named with its own attribute name in index order, not ignored, not defined, with an empty value |
| Schema.InitialTableWellShaped | source/MQTTCfgParser.c:114-131 | the static table satisfies the shape every reachable table keeps (names, defaults, flags CFG_TRUE/CFG_FALSE, values within 49 characters) |
| Schema.NamesDistinct | source/MQTTCfgParser.h:57-72 | there are ATT_IDX_SIZE names and they are pairwise distinct |
| Schema.NamesAreWords | source/MQTTCfgParser.h:57-72 | every name is a non-empty upper-case word that fits the 64-character token buffer |
| Schema.Lookup | source/MQTTCfgParser.c:294-300 | the lookup returns the first row whose name equals the token, and every earlier row differs; 16 when none matches |
| Schema.IsNameIsMembership | source/MQTTCfgParser.c:240-247 | a token is classified as an attribute name exactly when it is one of the sixteen names |
| Schema.MatchIsName | source/MQTTCfgParser.c:294-300 | a token equal to row i's name is found at row i or earlier |
| Schema.NonWordIsNotName | source/MQTTCfgParser.h:57-72 | a text containing a character outside 'A'..'Z' is not an attribute name |
| Schema.WifiSsidIsFirst | source/MQTTCfgParser.h:74 | WIFISSID is found at index ATT_IDX_WIFISSID, the first row |
| Schema.LookupFindsIndex | source/MQTTCfgParser.h:73-91 | each name is found at its own index |
| Schema.NameIsWord | source/MQTTCfgParser.h:57-72 | any attribute name is a non-empty upper-case word of at most 64 characters |
| Schema.IndexOrder | source/MQTTCfgParser.h:57-91 | each AttributesIndex_E member indexes the row holding the matching name |
| Cursor.SkipFrom | source/MQTTCfgParser.c:186-189 | the skip loop stops at the first position not in the skip set, or at the end, and everything it passed is in the set |
| Cursor.RunEnd | source/MQTTCfgParser.c:216-238 | a token run stops at the first stop character or at the end, and contains no stop character |
| Cursor.SkipFromStep | source/MQTTCfgParser.c:186-189 | skipping from a skipped character is skipping from the next one |
| Cursor.RunEndAt | source/MQTTCfgParser.c:216-238 | a run with no stop character, followed by a stop or the end, ends exactly there |
| Cursor.SkipFromAt | source/MQTTCfgParser.c:186-189 | a stretch of skipped characters, followed by a kept one or the end, is skipped exactly to there |
| Tokenizer.SkipComments | source/MQTTCfgParser.c:191-205 | after the comment loop the cursor is not on a '#' (reads past the end give NUL) |
| Tokenizer.TokenStart | source/MQTTCfgParser.c:183-205 | the first token character lies at or after the cursor and within the buffer |
| Tokenizer.NextToken | source/MQTTCfgParser.c:172-259 | one GetToken call never yields TOKEN_UNKNOWN; the text fits 64 characters; EOF exactly for the empty text; TOKEN_EQUAL exactly for "="; every other token advances the cursor; TOKEN_ATT_NAME only for a schema name; the call gets stuck exactly when the token does not start with '=' and its run is longer than 64 characters |
| Tokenizer.Classify | source/MQTTCfgParser.c:240-257 | a scanned run is TOKEN_ATT_NAME exactly when it is a schema name, TOKEN_EOF exactly when it is empty, and TOKEN_VALUE otherwise |
| Tokenizer.SkipChars | source/MQTTCfgParser.c:186-189 | the skip loop computes SkipFrom |
| Tokenizer.SkipCommentLines | source/MQTTCfgParser.c:191-205 | the comment loop computes SkipComments |
| Tokenizer.CopyRun | source/MQTTCfgParser.c:214-238 | the copying loop copies exactly the run up to the state's stop characters and leaves the cursor on the stop |
| Tokenizer.MatchName | source/MQTTCfgParser.c:240-247 | the classification loop yields TOKEN_ATT_NAME exactly for a schema name, TOKEN_UNKNOWN otherwise |
| Tokenizer.GetToken | source/MQTTCfgParser.c:172-259 | the method returns exactly the kind, text and new cursor of NextToken |
| Tokenizer.EqualInAnyRole | source/MQTTCfgParser.c:207-213 | an '=' under the cursor is the one-character TOKEN_EQUAL in every state |
| Tokenizer.EofAtEnd | source/MQTTCfgParser.c:253-257 | at the end of the buffer the token is EOF and the cursor stays |
| Tokenizer.SkipSetIsSkipped | source/MQTTCfgParser.c:183-189 | a leading character of the state's skip set does not change the token found |
| Tokenizer.CommentIsSkipped | source/MQTTCfgParser.c:191-205 | when a name is expected, a '#' comment up to the line end does not change the token found |
| Tokenizer.SpaceEndsInput | source/MQTTCfgParser.c:100-101 | outside the value state a space is not skipped and stops a name at once: the token is EOF |
| Tokenizer.LineEndEndsValue | source/MQTTCfgParser.c:216-226 | when a value is expected, a line end under the cursor gives EOF: an empty value ends the input |
| Tokenizer.HashOnlyCommentsNames | source/MQTTCfgParser.c:191-205 | outside the name state a '#' is not a comment but the first character of the token |
| Tokenizer.WordIsOneToken | source/MQTTCfgParser.c:227-251 | an upper-case word followed by a name stop is read as one token and classified |
| Tokenizer.NameIsOneToken | source/MQTTCfgParser.c:227-247 | an attribute name followed by a name stop is one TOKEN_ATT_NAME token |
| Tokenizer.ValueRunIsToken | source/MQTTCfgParser.c:216-251 | a value run followed by a value stop is one token, classified by its text |
| Tokenizer.NameInValueRole | source/MQTTCfgParser.c:216-247 | a value that spells an attribute name is classified TOKEN_ATT_NAME, not TOKEN_VALUE |
| Parser.Run | source/MQTTCfgParser.c:279-340 | the loop ends with a table of sixteen rows whenever it finishes; what it does on each token is stated by Parser.RunStep: an EOF token ends it with success in every state, a wrong kind fails with the table unchanged, a name selects Lookup's row, a value defines an undefined row or is stored and fails on a defined one |
| Parser.Parse | source/MQTTCfgParser.c:272-278 | a parse starts at the buffer's start in the name state with row 0 selected; it ends with sixteen rows when it finishes, and it always finishes when no run of the file is longer than 49 characters |
| Parser.RunStep | source/MQTTCfgParser.c:283-339 | one pass of the loop for each state and token kind: an EOF token ends the loop with success and the table as it is, in every state; a wrong kind fails with the table as it is; a name selects Lookup's row; an '=' moves on to the value; a value over 49 characters overruns; a first value defines the row; a second value is stored, then fails |
| Parser.RunSameToken | source/MQTTCfgParser.c:279-284 | the loop depends only on the token found, not on where scanning began |
| Parser.StoreEvolves | source/MQTTCfgParser.c:322-327 | storing a fitting value into a row keeps names, defaults and flags in range |
| Parser.RunEvolves | source/MQTTCfgParser.c:279-340 | a finished run keeps the names, defaults and ignore flags, never clears a defined flag, and leaves values within the slot |
| Parser.RunKeepsShape | source/MQTTCfgParser.c:279-340 | a finished run keeps the table well shaped, and every row defined before stays defined |
| Parser.NoneIsNeverEntered | source/MQTTCfgParser.c:336-338 | the default branch of the state switch is never taken: the loop equals the loop without the STAT_EXP_NONE state |
| Parser.NameRunWithinValueRun | source/MQTTCfgParser.c:216-238 | the run scanned for a name is never longer than the run scanned for a value from the same place |
| Parser.ShortRunsFinish | source/MQTTCfgParser.c:216-238 | when no run of the file exceeds 49 characters, the loop neither hangs nor overruns a slot |
| Parser.Stored | source/MQTTCfgParser.c:322-333 | the table after one file line keeps sixteen rows |
| Parser.Expected | source/MQTTCfgParser.c:272-345 | the line-by-line meaning of a file always finishes with sixteen rows |
| Parser.BlankLineStep | source/MQTTCfgParser.c:183-189 | an empty line between assignments changes nothing |
| Parser.CommentLineStep | source/MQTTCfgParser.c:191-205 | a comment line changes nothing |
| Parser.GoodValueIsValue | source/MQTTCfgParser.c:240-251 | a value that is not an attribute name is classified TOKEN_VALUE |
| Parser.NameStep | source/MQTTCfgParser.c:287-303 | a name token selects the row Lookup finds and moves to the '=' state |
| Parser.EqualStep | source/MQTTCfgParser.c:304-313 | an '=' moves to the value state |
| Parser.ValueStep | source/MQTTCfgParser.c:314-335 | a value token defines an undefined row and goes on; on a defined row it stores the value and fails |
| Parser.AssignLineStep | source/MQTTCfgParser.c:283-335 | a whole `NAME=value` line defines the named row, or fails with the value stored when the row was already defined |
| Parser.CommentRendered | source/MQTTCfgParser.c:191-205 | a rendered comment line changes nothing |
| Parser.AssignRendered | source/MQTTCfgParser.c:283-335 | a rendered assignment line has the effect of AssignLineStep |
| Parser.LineStep | source/MQTTCfgParser.c:279-340 | any rendered line either clashes and ends the loop with a failure, or goes on with the line's effect on the table |
| Parser.RenderedHead | source/MQTTCfgParser.c:279-340 | the first line of a rendered file is consumed with the effect the line-by-line meaning gives it |
| Parser.RenderedFileParses | source/MQTTCfgParser.c:272-345 | parsing any rendered file gives exactly its line-by-line meaning |
| Parser.RenderedParse | source/MQTTCfgParser.c:272-345 | a whole parse of a rendered file, from the start in the name state, is its line-by-line meaning |
| Parser.LookupInjective | source/MQTTCfgParser.c:294-300 | two different names are found at two different rows |
| Parser.ExpectedKeepsUnassigned | source/MQTTCfgParser.c:314-335 | a row whose name the file does not assign is left as it was |
| Parser.ExpectedAppend | source/MQTTCfgParser.c:279-340 | the meaning of a file with a successful first part is the meaning of the second part from where the first left the table |
| Parser.DistinctAssignmentsResolve | source/MQTTCfgParser.c:314-335 | a file assigning each name at most once, to undefined rows, succeeds; each assigned row is defined with its value; every other row is unchanged |
| Parser.SecondAssignmentFails | source/MQTTCfgParser.c:324-333 | assigning an attribute that is already defined fails the whole file, after storing the new value |
| Parser.ExpectedDefines | source/MQTTCfgParser.c:324-327 | after a successful file, every assigned row, and every row defined before, is defined |
| Parser.StoredDefines | source/MQTTCfgParser.c:322-327 | an assignment defines its own row and leaves every other row as it was |
| Parser.StoredElsewhere | source/MQTTCfgParser.c:322-327 | an assignment leaves the rows of other names as they were |
| Parser.EmptyFileParses | source/MQTTCfgParser.c:279-284 | an empty file succeeds and changes nothing |
| Parser.WifiHomeText | source/MQTTCfgParser.c:294-300 | the assignment WIFISSID=home renders as that text and selects row ATT_IDX_WIFISSID |
| Parser.CommentedFileParses | source/MQTTCfgParser.c:272-345 | "# wifi\nWIFISSID=home\n" succeeds and defines WIFISSID as "home", leaving every other row as it was |
| Parser.NameWithoutValueParses | source/MQTTCfgParser.c:279-313 | a file holding a name and a line end, with no '=', succeeds without changing the table |
| Parser.NameLineEndSkipped | source/MQTTCfgParser.c:183-189 | a line end after a name is skipped as white space in the '=' state: the parse goes on from the next line with the named row selected |
| Parser.EqualOnNextLine | source/MQTTCfgParser.c:304-313 | the '=' of an assignment may stand on the line after the name, and the value state is reached |
| Parser.WordAfterNameLineFails | source/MQTTCfgParser.c:304-313 | any word on the line after a name, where the '=' is expected, fails the file with the table unchanged |
| Parser.EmptyValueEndsParse | source/MQTTCfgParser.c:181-184 | an assignment with an empty value ends the parse successfully: the rest of the file is not read and nothing is cleared |
| Parser.LeadingSpaceEndsParse | source/MQTTCfgParser.c:100-101 | a file starting with a space succeeds without reading anything |
| Parser.LongValueHangs | source/MQTTCfgParser.c:214-238 | a value run of more than 64 characters with no CR, LF or TAB hangs the loop |
| Parser.LongValueLineHangs | source/MQTTCfgParser.c:214-238 | a file whose first line is `NAME=` followed by such a run hangs, whatever follows |
| Parser.NameAsValueFails | source/MQTTCfgParser.c:314-320 | a value that spells an attribute name fails the file without changing the table |
| Numeric.DigitValue | source/MQTTCfgParser.c:415-417 | a decimal digit has a value below ten |
| Numeric.SpaceEnd | source/MQTTCfgParser.c:415-417 | atol's leading white space ends at the first non-space character |
| Numeric.DigitEnd | source/MQTTCfgParser.c:415-417 | atol's digit run ends at the first non-digit |
| Numeric.Atol | source/MQTTCfgParser.c:415-417 | a negative result only comes from a '-' after the leading white space |
| Numeric.AtolFrom | source/MQTTCfgParser.c:415-417 | with the white space and the digit run located, atol is the run's value, negated after a '-' |
| Numeric.AtolStopsAtNonDigit | source/MQTTCfgParser.c:415-417 | white space, an optional sign and a digit run read as the run's value, negated for '-'; what follows the first non-digit is ignored |
| Numeric.AtolWithoutDigits | source/MQTTCfgParser.c:444-448 | a text with no digit after its white space and optional sign reads as 0 |
| Numeric.Glyph | source/MQTTCfgParser.c:548 | digit glyphs: below ten a decimal digit of that value, '0' only for zero, never '-' |
| Numeric.Reverse | source/MQTTCfgParser.c:554-558 | reversal keeps the length |
| Numeric.CDiv | source/MQTTCfgParser.c:546-548 | C's truncating division: the magnitude of the quotient and of the remainder are those of the magnitudes, and the signs follow the dividend |
| Numeric.Digits | source/MQTTCfgParser.c:545-549 | the digit string of a magnitude is non-empty, has no leading zero unless it is zero, and is decimal digits in bases up to ten |
| Numeric.DivBounds | source/MQTTCfgParser.c:546-547 | dividing by a base no larger than the value gives a smaller, positive quotient and a remainder below the base |
| Numeric.ModSmall | source/MQTTCfgParser.c:548 | a value below the base is its own remainder |
| Numeric.DigitsStep | source/MQTTCfgParser.c:545-549 | one pass of the do-while loop emits the lowest digit, and the rest are the digits of the quotient |
| Numeric.ItoaText | source/MQTTCfgParser.c:537-560 | itoa writes nothing for a base outside 2..36; otherwise the text starts with '-' exactly for a negative value |
| Numeric.DigitTableMirror | source/MQTTCfgParser.c:548 | the lookup string at offset 35 + r holds the glyph of the magnitude of r, for either sign of remainder |
| Numeric.AlphabetText | source/MQTTCfgParser.c:548 | the glyph alphabet is "0123456789abcdefghijklmnopqrstuvwxyz" |
| Numeric.DigitTableText | source/MQTTCfgParser.c:548 | the lookup string is the one written in the source |
| Numeric.BackHalfText | source/MQTTCfgParser.c:548 | the first half of the lookup string is the alphabet reversed |
| Numeric.ReverseSnoc | source/MQTTCfgParser.c:554-558 | reversing a sequence with an element appended puts that element first |
| Numeric.Itoa | source/MQTTCfgParser.c:537-560 | the buffer starts with the text of the value in the base, followed by a NUL, and the rest of the buffer is untouched; an invalid base gives the empty string |
| Numeric.FillBackwards | source/MQTTCfgParser.c:545-552 | the digits and the sign are written in reverse order, and the returned end is the text's length |
| Numeric.ReversePrefix | source/MQTTCfgParser.c:553-558 | the two-pointer swap loop reverses the prefix in place and leaves the rest alone |
| Numeric.DivShrinks | source/MQTTCfgParser.c:546-547 | the loop's quotient never grows and shrinks while positive |
| Numeric.FillStep | source/MQTTCfgParser.c:545-549 | the do-while loop's invariant: the written digits, reversed, are the low end of the full digit string |
| Numeric.QuotientZero | source/MQTTCfgParser.c:549 | the do-while loop stops exactly when the remaining value is below the base |
| Numeric.DecimalDigitsValue | source/MQTTCfgParser.c:545-549 | the base-10 digits of n read back as n |
| Numeric.AtolItoaRoundTrip | source/MQTTCfgParser.c:537-560 | atol reads back any value itoa writes in base 10 |
| Numeric.ItoaZero | source/MQTTCfgParser.c:545-549 | zero is written "0" in every valid base |
| Numeric.ItoaNegative | source/MQTTCfgParser.c:552 | a negative value is its magnitude's text behind a '-' |
| Schema.BoolToStr | source/MQTTCfgParser.h:38 | a compiled flag renders as "TRUE" exactly when it is non-zero, and as "FALSE" otherwise |
| MqttCfgParser.GetAttValue | source/MQTTCfgParser.c:139-150 | an index inside the table answers the row's parsed value or its default; any other index answers "" |
| MqttCfgParser.IsCfgTrue | source/MQTTCfgParser.c:419-425 | a text that enables a flag is the BOOL_TO_STR text of a set flag or "1"; the text of a clear flag never does |
| MqttCfgParser.BoolDefaultRoundTrip | source/MQTTCfgParser.h:38 | a compiled boolean rendered with BOOL_TO_STR reads back as true exactly when it is non-zero |
| MqttCfgParser.IsCfgTrueIsExact | source/MQTTCfgParser.c:419-425 | only the exact texts "TRUE" and "1" enable a flag; case and trailing spaces matter |
| MqttCfgParser.DefaultsInOrder | source/MQTTCfgParser.c:114-131 | each row's default is the build macro for that attribute, booleans through BOOL_TO_STR |
| MqttCfgParser.ResetResolvesToDefaults | source/MQTTCfgParser.c:139-150 | on the reset table getAttValue answers each row's default, and "" for an index outside the table |
| MqttCfgParser.AssignedFileResolves | source/MQTTCfgParser.c:139-150 | after a file assigning each name at most once, getAttValue answers the file's value for every assigned attribute and the default for every other one |
| MqttCfgParser.AssignedFileResolvesFrom | source/MQTTCfgParser.c:139-150 | the same, from any table in which no row is defined |
| MqttCfgParser.SlotsResolve | source/MQTTCfgParser.c:139-150 | on a table holding the file's values, flagged defined, in the assigned rows and otherwise untouched rows that were undefined, getAttValue answers the value for assigned attributes and the default for the others |
| MqttCfgParser.NoUserMeansRegistration | source/MQTTCfgParser.c:530-531 | a successful file that does not assign MQTTUSER leaves the user at its default, which selects registration mode |
| MqttCfgParser.OtherUserMeansOperation | source/MQTTCfgParser.c:530-534 | a file assigning MQTTUSER a value other than the default makes the user differ from the default, which selects operation mode |
| MqttCfgParser.LookupPassesOver | source/MQTTCfgParser.c:294-300 | the lookup loop can step past a row whose name differs |
| MqttCfgParser.ClearedIsInitial | source/MQTTCfgParser.c:515-522 | clearing the flag and the value of every row of a reachable table gives back the static table |
| MqttCfgParser.RenameKeepsNames | source/MQTTCfgParser.c:322-327 | replacing a row by one with the same name keeps every name in its place |
| MqttCfgParser.ConfigStore.constructor | source/MQTTCfgParser.c:114-131 | a new store holds the static table built from the given defaults |
| MqttCfgParser.ConfigStore.Reset | source/MQTTCfgParser.c:515-522 | Init's loop brings any reachable table back to the static table |
| MqttCfgParser.ConfigStore.ClearRows | source/MQTTCfgParser.c:515-518 | every row loses its defined flag and its value, and keeps everything else |
| MqttCfgParser.ConfigStore.FindRow | source/MQTTCfgParser.c:294-300 | the search over the array returns the row Lookup gives |
| MqttCfgParser.ConfigStore.StoreValue | source/MQTTCfgParser.c:322-333 | the value is copied into the row; the row becomes defined and the call reports success exactly when it was undefined before; no other row changes |
| MqttCfgParser.ConfigStore.ReadTokens | source/MQTTCfgParser.c:279-340 | the token loop on the array leaves the table Parse gives and returns CFG_TRUE exactly when Parse succeeds |
| MqttCfgParser.ConfigStore.Config | source/MQTTCfgParser.c:272-345 | the same, and the table stays well shaped |
| MqttCfgParser.ConfigStore.ParseConfigFile | source/MQTTCfgParser.c:374-392 | a failed read is passed through and leaves the table alone; a successful read is parsed, giving APP_OPERATION_OK on success and APP_SDCARD_NO_ERROR on a parse failure |
| MqttCfgParser.ConfigStore.Init | source/MQTTCfgParser.c:513-535 | Init resets the table, then parses the file; it gives APP_ERROR exactly when the read or the parse fails, and otherwise registration mode exactly when the MQTT user is the compiled default |
| MqttCfgParser.ConfigStore.GetWlanSsid | source/MQTTCfgParser.c:399-401 | the file's value when WIFISSID is defined, else the compiled default |
| MqttCfgParser.ConfigStore.GetWlanPassword | source/MQTTCfgParser.c:407-409 | the file's value when WIFIPASSWORD is defined, else the compiled default |
| MqttCfgParser.ConfigStore.GetMqttBrokerName | source/MQTTCfgParser.c:411-413 | the file's value when MQTTBROKERNAME is defined, else the compiled default |
| MqttCfgParser.ConfigStore.GetMqttBrokerPort | source/MQTTCfgParser.c:415-417 | atol of the resolved MQTTBROKERPORT text |
| MqttCfgParser.ConfigStore.IsMqttSecureEnabled | source/MQTTCfgParser.c:419-425 | with MQTTSECURE defined, whether the text is "TRUE" or "1"; otherwise the truthiness of the compiled flag |
| MqttCfgParser.ConfigStore.IsMqttAnonymous | source/MQTTCfgParser.c:427-433 | with MQTTANONYMOUS defined, whether the text is "TRUE" or "1"; otherwise the compiled flag |
| MqttCfgParser.ConfigStore.GetMqttUser | source/MQTTCfgParser.c:436-438 | the file's value when MQTTUSER is defined, else the compiled default |
| MqttCfgParser.ConfigStore.GetMqttPassword | source/MQTTCfgParser.c:440-442 | the file's value when MQTTPASSWORD is defined, else the compiled default |
| MqttCfgParser.ConfigStore.GetStreamRate | source/MQTTCfgParser.c:444-448 | atol of the resolved STREAMRATE text |
| MqttCfgParser.ConfigStore.IsAccelEnabled | source/MQTTCfgParser.c:450-456 | with ACCELENABLED defined, whether the text is "TRUE" or "1"; otherwise the compiled flag |
| MqttCfgParser.ConfigStore.IsGyroEnabled | source/MQTTCfgParser.c:458-464 | with GYROENABLED defined, whether the text is "TRUE" or "1"; otherwise the compiled flag |
| MqttCfgParser.ConfigStore.IsMagnetEnabled | source/MQTTCfgParser.c:466-472 | with MAGENABLED defined, whether the text is "TRUE" or "1"; otherwise the compiled flag |
| MqttCfgParser.ConfigStore.IsEnvEnabled | source/MQTTCfgParser.c:474-480 | with ENVENABLED defined, whether the text is "TRUE" or "1"; otherwise the compiled flag |
| MqttCfgParser.ConfigStore.IsLightEnabled | source/MQTTCfgParser.c:482-491 | with LIGHTENABLED defined, whether the text is "TRUE" or "1"; otherwise the compiled flag |
| MqttCfgParser.ConfigStore.GetSntpName | source/MQTTCfgParser.c:499-501 | the file's value when SNTPNAME is defined, else the compiled default |
| MqttCfgParser.ConfigStore.GetSntpPort | source/MQTTCfgParser.c:509-511 | atol of the resolved SNTPPORT text |

### Behaviour that may surprise

The model follows the code.

- The comment at `source/MQTTCfgParser.c:181-182` says that empty attribute
  values delete compiled defaults. In the code, a line end under the cursor in
  the value state produces an EOF token. That ends the whole parse with success:
  the row is not cleared, and the rest of the file is never read
  (`Parser.EmptyValueEndsParse`).
- A line end after a name is skipped while the `=` is expected
  (`Parser.NameLineEndSkipped`). So a name that is the last line of the file,
  with no `=`, is accepted without effect (`Parser.NameWithoutValueParses`).
  The `=` may also come on a later line (`Parser.EqualOnNextLine`). Any other
  token after the name fails the file (`Parser.WordAfterNameLineFails`).
- A space is a stop character for names and is not skipped outside the value
  state, so a line that starts with a space ends the parse with success
  (`Parser.LeadingSpaceEndsParse`, `Tokenizer.SpaceEndsInput`).
- A value that spells an attribute name fails the file
  (`Parser.NameAsValueFails`).
- A `#` only starts a comment where a name is expected. After `=` it is part of
  the value, and so is every space up to CR, LF or TAB. A value run longer than
  64 characters hangs the token loop (`Parser.LongValueHangs`,
  `Parser.LongValueLineHangs`). The sample configuration in the header comment
  of `source/MQTTCfgParser.c:48` has such a line: `MQTTANONYMOUS=FALSE` followed
  by a remark makes a run of 122 characters.
- A second assignment of the same attribute first copies its value into the row,
  then fails the file (`Parser.SecondAssignmentFails`).
- `MQTTCfgParser_ParseConfigFile` returns `APP_SDCARD_NO_ERROR`, a success code,
  when the file reads but does not parse. `Init` still treats that as a failure,
  because it compares against `APP_OPERATION_OK`.
- A read status of `APP_OPERATION_OK` itself also counts as success in `Init`,
  even though nothing is parsed.

## Left out

- The SD-card read (`MQTTFlash_SDCardRead`) is I/O. Its status and the bytes it
  delivered are the parameter `SdCardRead`. The clearing of the whole read
  buffer before the read is not modelled.
- `printf` diagnostics and `MQTTCfgParser_List` (`source/MQTTCfgParser.c:347-371`)
  only print; they change no state.
- Some loops of `GetToken` test the character before the bound. Past `bufSize`
  they read the zeroed rest of the read buffer, so they see NUL, as long as the
  file is shorter than `FILE_LARGE_BUFFER_SIZE`. A file that fills the buffer
  is read past its end; that is not modelled. The model reads
  past the end as NUL (`Cursor.At`). It requires the delivered bytes to contain
  no NUL (`Cursor.NoNul`), because an embedded NUL would end the
  `strcmp`/`strcpy` texts early.
- In Init the reset loop uses `memset` over `CFG_MAX_LINE_SIZE` (65) bytes of a
  50-byte slot. For the last slot this writes 15 bytes past the value array. The
  model clears each slot and does not model memory beyond the table.
- Replacing a `NULL` default by `CFG_EMPTY` (`source/MQTTCfgParser.c:519-521`) is
  not modelled. Defaults are strings, never `NULL`.
- No modelled operation depends on the `ignore` field. Only `MQTTCfgParser_List`,
  which is left out, reads it.
- Parser.Run: a value longer than 49 characters overflows its slot in `strcpy`;
  this is the outcome `Overruns`, and what the overflow corrupts is not modelled.
- Parser.Run: a run of more than 64 characters makes the copying loop of
  `GetToken` stop advancing, so the loop never ends; this is the outcome `Hangs`
  (`Tokenizer.Scan.Stuck`).
- MqttCfgParser.ConfigStore.Config: requires that the parse finishes (neither
  `Hangs` nor `Overruns`), because the C behaviour past those points is undefined
  or non-terminating.
- MqttCfgParser.ConfigStore.ReadTokens: requires the same.
- MqttCfgParser.ConfigStore.ParseConfigFile: requires the same for a successful
  read.
- MqttCfgParser.ConfigStore.Init: requires the same for a successful read.
- Numeric.Itoa: requires the caller's buffer to hold the text and its NUL,
  because the C function writes past a buffer that is too small.
- MqttCfgParser.ConfigStore.GetMqttBrokerPort: does not model the overflow of
  `atol` or the cast to `int32_t`, because the C behaviour there is undefined or
  implementation-defined; the result is the unbounded value `atol` denotes.
- MqttCfgParser.ConfigStore.GetStreamRate: does not model the overflow of `atol`
  or the cast to `int32_t`, for the same reason.
- MqttCfgParser.ConfigStore.GetSntpPort: does not model the overflow of `atol` or
  the cast to `int32_t`, for the same reason.
- The widths of the sizes and indices are not modelled:
  - `BytesRead` is narrowed to the `uint16_t` `bufSize`;
  - the buffer index is `uint16_t`;
  - `CurrentConfigToSet` is `int8_t`.
  The model treats the delivered bytes as one sequence of any length.
  `FILE_LARGE_BUFFER_SIZE` is defined outside `source/MQTTCfgParser.c`, in code
  that is not part of this model.
- `source/MQTTRegistration.c` and the MQTT operation code that consumes the
  accessors are not part of this model.

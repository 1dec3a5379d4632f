/**
 * GetToken: the scanner that moves a cursor over the configuration buffer
 * and returns one classified token. What it skips and where a run stops
 * depend on the parser state it is told to expect.
 */
module Tokenizer {
  import opened Schema
  import opened Cursor

  /** CFG_WHITESPACE, skipped when a name or '=' is expected. */
  const CfgWhitespace: string := "\t\n\r"
  /** CFG_SPACE, skipped when a value is expected. */
  const CfgSpace: string := "\t "
  /** Where a '#' comment ends. */
  const LineEnds: string := "\n\r"
  /** Where a value run stops. */
  const ValueStops: string := "\r\n\t"
  /** Where a name (or any non-value) run stops. */
  const NameStops: string := "\r\n\t ="

  /** A token: its kind, its text and the cursor after it. */
  datatype Token = Token(kind: TokenType, text: string, next: nat)

  /**
   * The result of one scan. `Stuck` is a run longer than the token buffer:
   * the source's copy loop stops advancing once the buffer is full and never
   * leaves the loop.
   */
  datatype Scan = Scanned(token: Token) | Stuck

  function SkipSet(expected: State): string
  {
    if expected == ExpValue then CfgSpace else CfgWhitespace
  }

  function Stops(expected: State): string
  {
    if expected == ExpValue then ValueStops else NameStops
  }

  /** The `#` comment loop: while on a '#', skip to the end of line, then over whitespace. */
  function SkipComments(buf: seq<char>, i: nat): (j: nat)
    requires i <= |buf|
    ensures i <= j <= |buf|
    ensures At(buf, j) != '#'
    decreases |buf| - i
  {
    if At(buf, i) == '#' then
      SkipComments(buf, SkipFrom(buf, RunEnd(buf, i, LineEnds), CfgWhitespace))
    else
      i
  }

  /** Where the token proper starts: after the skip set and, when a name is expected, after comments. */
  function TokenStart(buf: seq<char>, pos: nat, expected: State): (p: nat)
    requires pos <= |buf|
    ensures pos <= p <= |buf|
  {
    var p1 := SkipFrom(buf, pos, SkipSet(expected));
    if expected == ExpName then SkipComments(buf, p1) else p1
  }

  /** The classification of a scanned run: a schema name, else a value if non-empty, else end of input. */
  function Classify(text: string): (k: TokenType)
    ensures k == TokenAttName <==> IsName(text)
    ensures k == TokenEof <==> text == []
    ensures k == TokenValue <==> !IsName(text) && text != []
  {
    if IsName(text) then
      NameIsWord(text);
      TokenAttName
    else if |text| > 0 then TokenValue
    else TokenEof
  }

  /** The token GetToken returns for the buffer, the cursor and the expected state. */
  function NextToken(buf: seq<char>, pos: nat, expected: State): (r: Scan)
    requires pos <= |buf|
    ensures r.Scanned? ==> pos <= r.token.next <= |buf|
    ensures r.Scanned? ==> r.token.kind != TokenUnknown && |r.token.text| <= MaxTokenLen
    ensures r.Scanned? ==> (r.token.kind == TokenEof <==> r.token.text == [])
    ensures r.Scanned? ==> (r.token.kind == TokenEqual <==> r.token.text == "=")
    ensures r.Scanned? && r.token.kind != TokenEof ==> pos < r.token.next
    ensures r.Scanned? && r.token.kind == TokenAttName ==> IsName(r.token.text)
    ensures var p := TokenStart(buf, pos, expected);
      r.Stuck? <==> At(buf, p) != '=' && RunEnd(buf, p, Stops(expected)) - p > MaxTokenLen
  {
    var p := TokenStart(buf, pos, expected);
    if At(buf, p) == '=' then
      Scanned(Token(TokenEqual, "=", p + 1))
    else
      var e := RunEnd(buf, p, Stops(expected));
      if e - p > MaxTokenLen then Stuck
      else
        var text := buf[p..e];
        assert text != "=" by {
          if |text| == 1 { assert text[0] == buf[p]; }
        }
        assert IsName(text) ==> 0 < |text| by {
          if IsName(text) { NameIsWord(text); }
        }
        Scanned(Token(Classify(text), text, e))
  }

  /** The first loop of GetToken: bypass every character of the skip set. */
  method SkipChars(buf: seq<char>, from: nat, skipSet: string) returns (next: nat)
    requires from <= |buf|
    ensures next == SkipFrom(buf, from, skipSet)
  {
    next := from;
    while next < |buf| && buf[next] in skipSet
      invariant from <= next <= |buf|
      invariant SkipFrom(buf, next, skipSet) == SkipFrom(buf, from, skipSet)
      decreases |buf| - next
    {
      next := next + 1;
    }
  }

  /** The comment loop of GetToken: while on a '#', skip to the end of line and over whitespace. */
  method SkipCommentLines(buf: seq<char>, from: nat) returns (next: nat)
    requires from <= |buf|
    ensures next == SkipComments(buf, from)
  {
    next := from;
    while At(buf, next) == '#'
      invariant from <= next <= |buf|
      invariant SkipComments(buf, next) == SkipComments(buf, from)
      decreases |buf| - next
    {
      ghost var hash := next;
      while At(buf, next) != '\n' && At(buf, next) != '\r' && next < |buf|
        invariant hash <= next <= |buf|
        invariant RunEnd(buf, next, LineEnds) == RunEnd(buf, hash, LineEnds)
        decreases |buf| - next
      {
        next := next + 1;
      }
      next := SkipChars(buf, next, CfgWhitespace);
    }
  }

  /**
   * The copy loop of GetToken: copy characters into the token while they are
   * not stops and the token buffer has room. The source leaves the loop only
   * at a stop or at the end, so the run must fit the buffer.
   */
  method CopyRun(buf: seq<char>, start: nat, expTokenType: State) returns (token: string, next: nat)
    requires start <= |buf|
    requires RunEnd(buf, start, Stops(expTokenType)) - start <= MaxTokenLen
    ensures next == RunEnd(buf, start, Stops(expTokenType))
    ensures token == buf[start..next]
  {
    ghost var stops := Stops(expTokenType);
    var index: nat := 0;
    token := "";
    next := start;
    if expTokenType == ExpValue {
      while At(buf, next) != '\r' && At(buf, next) != '\n' && At(buf, next) != '\t' && next < |buf|
        invariant start <= next <= RunEnd(buf, start, stops)
        invariant index == next - start && token == buf[start..next]
        decreases |buf| - next
      {
        if index < MaxTokenLen {
          token := token + [buf[next]];
          next := next + 1;
          index := index + 1;
        }
      }
    } else {
      while At(buf, next) != '\r' && At(buf, next) != '\n' && At(buf, next) != '\t'
        && At(buf, next) != ' ' && At(buf, next) != '=' && next < |buf|
        invariant start <= next <= RunEnd(buf, start, stops)
        invariant index == next - start && token == buf[start..next]
        decreases |buf| - next
      {
        if index < MaxTokenLen {
          token := token + [buf[next]];
          next := next + 1;
          index := index + 1;
        }
      }
    }
  }

  /**
   * GetToken: skip, skip comments when a name is expected, then either take
   * '=' or copy a run into the token buffer, and classify it.
   */
  method GetToken(buf: seq<char>, idxAtBuffer: nat, expTokenType: State)
    returns (kind: TokenType, token: string, next: nat)
    requires idxAtBuffer <= |buf| && NoNul(buf)
    requires NextToken(buf, idxAtBuffer, expTokenType).Scanned?
    ensures NextToken(buf, idxAtBuffer, expTokenType) == Scanned(Token(kind, token, next))
  {
    kind := TokenUnknown;
    token := "";
    var index: nat := 0;
    var skipSet := if expTokenType == ExpValue then CfgSpace else CfgWhitespace;
    next := SkipChars(buf, idxAtBuffer, skipSet);
    if expTokenType == ExpName {
      next := SkipCommentLines(buf, next);
    }

    if At(buf, next) == '=' {
      token := "=";
      next := next + 1;
      index := 1;
      kind := TokenEqual;
    } else {
      token, next := CopyRun(buf, next, expTokenType);
      index := |token|;
      kind := MatchName(token);
      if index > 0 && kind == TokenUnknown {
        kind := TokenValue;
      }
    }
    if index == 0 && kind == TokenUnknown {
      kind := TokenEof;
    }
  }

  /** The classification loop of GetToken: compare the run with every name of the table. */
  method MatchName(token: string) returns (kind: TokenType)
    ensures kind == (if IsName(token) then TokenAttName else TokenUnknown)
  {
    kind := TokenUnknown;
    for configIndex := 0 to AttCount
      invariant kind == TokenUnknown ==> forall j | 0 <= j < configIndex :: Names[j] != token
      invariant kind == TokenUnknown || (kind == TokenAttName && IsName(token))
    {
      if token == Names[configIndex] {
        MatchIsName(token, configIndex);
        kind := TokenAttName;
        break;
      }
    }
  }

  /** A '=' is an EQUAL token of length 1, whatever the expected role. */
  lemma EqualInAnyRole(buf: seq<char>, pos: nat, expected: State)
    requires pos < |buf| && buf[pos] == '='
    ensures NextToken(buf, pos, expected) == Scanned(Token(TokenEqual, "=", pos + 1))
  {
  }

  /** At the end of the buffer every role reads end of input. */
  lemma EofAtEnd(buf: seq<char>, expected: State)
    ensures NextToken(buf, |buf|, expected) == Scanned(Token(TokenEof, "", |buf|))
  {
  }

  /** A character of the role's skip set is passed over: the token is the one found after it. */
  lemma SkipSetIsSkipped(buf: seq<char>, pos: nat, expected: State)
    requires pos < |buf| && buf[pos] in SkipSet(expected)
    ensures NextToken(buf, pos, expected) == NextToken(buf, pos + 1, expected)
  {
    assert TokenStart(buf, pos, expected) == TokenStart(buf, pos + 1, expected) by {
      SkipFromStep(buf, pos, SkipSet(expected));
    }
  }

  /** When a name is expected, a '#' line up to its end of line is passed over. */
  lemma CommentIsSkipped(buf: seq<char>, p: nat, q: nat)
    requires p < q <= |buf| && buf[p] == '#'
    requires forall k | p < k < q :: buf[k] !in LineEnds
    requires q == |buf| || buf[q] in LineEnds
    ensures NextToken(buf, p, ExpName) == NextToken(buf, q, ExpName)
  {
    RunEndAt(buf, p, q, LineEnds);
    assert TokenStart(buf, p, ExpName) == SkipComments(buf, SkipFrom(buf, q, CfgWhitespace));
  }

  /** A space is not skipped outside the value role and stops the run at once: end of input. */
  lemma SpaceEndsInput(buf: seq<char>, pos: nat, expected: State)
    requires expected != ExpValue
    requires pos < |buf| && buf[pos] == ' '
    ensures NextToken(buf, pos, expected) == Scanned(Token(TokenEof, "", pos))
  {
    assert TokenStart(buf, pos, expected) == pos;
    RunEndAt(buf, pos, pos, NameStops);
  }

  /** In the value role a line end right after the skipped blanks gives an empty run: end of input. */
  lemma LineEndEndsValue(buf: seq<char>, pos: nat)
    requires pos < |buf| && buf[pos] in LineEnds
    ensures NextToken(buf, pos, ExpValue) == Scanned(Token(TokenEof, "", pos))
  {
    assert TokenStart(buf, pos, ExpValue) == pos;
    RunEndAt(buf, pos, pos, ValueStops);
  }

  /** Outside the name role a '#' is not a comment: it starts the token. */
  lemma HashOnlyCommentsNames(buf: seq<char>, pos: nat, expected: State)
    requires expected != ExpName
    requires pos < |buf| && buf[pos] == '#'
    ensures NextToken(buf, pos, expected).Scanned? ==>
      var t := NextToken(buf, pos, expected).token;
      t.kind != TokenEof && |t.text| > 0 && t.text[0] == '#'
  {
    assert TokenStart(buf, pos, expected) == pos;
  }

  /** A word of upper-case letters followed by a stop (or the end) is read as one token outside the value role. */
  lemma WordIsOneToken(buf: seq<char>, pos: nat, e: nat, w: string, expected: State)
    requires expected != ExpValue && 0 < |w| <= MaxTokenLen && UpperWord(w)
    requires e == pos + |w| && e <= |buf| && buf[pos..e] == w
    requires e == |buf| || buf[e] in NameStops
    ensures NextToken(buf, pos, expected) == Scanned(Token(Classify(w), w, e))
  {
    assert buf[pos] == w[0];
    assert TokenStart(buf, pos, expected) == pos;
    forall k | pos <= k < e
      ensures buf[k] !in NameStops
    {
      assert buf[k] == w[k - pos];
    }
    RunEndAt(buf, pos, e, NameStops);
  }

  /**
   * A schema name followed by a stop (or the end) is read as one name token
   * wherever a name or '=' is expected.
   */
  lemma NameIsOneToken(buf: seq<char>, pos: nat, e: nat, n: string, expected: State)
    requires expected != ExpValue && IsName(n)
    requires e == pos + |n| && e <= |buf| && buf[pos..e] == n
    requires e == |buf| || buf[e] in NameStops
    ensures NextToken(buf, pos, expected) == Scanned(Token(TokenAttName, n, e))
  {
    NameIsWord(n);
    WordIsOneToken(buf, pos, e, n, expected);
  }

  /**
   * In the value role a run keeps its inner and trailing spaces and any '#':
   * it is copied up to CR, LF or TAB, and is a name token when it spells a name.
   */
  lemma ValueRunIsToken(buf: seq<char>, pos: nat, e: nat, v: string)
    requires 0 < |v| <= MaxTokenLen && v[0] != ' ' && v[0] != '\t' && v[0] != '='
    requires forall k | 0 <= k < |v| :: v[k] !in ValueStops
    requires e == pos + |v| && e <= |buf| && buf[pos..e] == v
    requires e == |buf| || buf[e] in ValueStops
    ensures NextToken(buf, pos, ExpValue) == Scanned(Token(Classify(v), v, e))
  {
    assert buf[pos] == v[0];
    assert TokenStart(buf, pos, ExpValue) == pos;
    forall k | pos <= k < e
      ensures buf[k] !in ValueStops
    {
      assert buf[k] == v[k - pos];
    }
    RunEndAt(buf, pos, e, ValueStops);
  }

  /** A schema name met where a value is expected is still read as a name token. */
  lemma NameInValueRole(buf: seq<char>, pos: nat, e: nat, n: string)
    requires IsName(n) && e == pos + |n| && e <= |buf| && buf[pos..e] == n
    requires e == |buf| || buf[e] in ValueStops
    ensures NextToken(buf, pos, ExpValue) == Scanned(Token(TokenAttName, n, e))
  {
    NameIsWord(n);
    forall k | 0 <= k < |n|
      ensures n[k] !in ValueStops
    {
      assert 'A' <= n[k] <= 'Z';
    }
    ValueRunIsToken(buf, pos, e, n);
  }
}

/**
 * The state machine of MQTTCfgParser_Config as a function of the buffer,
 * the cursor, the expected state, the slot being assigned and the table,
 * and a line-by-line reference meaning of a configuration file that the
 * state machine is proved to agree with.
 */
module Parser {
  import opened Schema
  import opened Cursor
  import opened Tokenizer

  /**
   * How a parse ends. `Finished(ok, slots)` is the source's return value and
   * the table it leaves; `Hangs` is a run longer than the token buffer (the
   * source never returns); `Overruns` is a value longer than its 50-byte slot
   * (the source's strcpy writes past the slot).
   */
  datatype Outcome = Finished(ok: bool, slots: seq<ConfigLine>) | Hangs | Overruns

  /**
   * The parse loop from cursor `pos` in state `state`, with `cur` the slot an
   * accepted name selected. Any end-of-input token ends it with success; a
   * token of the wrong kind ends it with failure; a value for a slot that is
   * already defined is written and then ends it with failure.
   */
  function Run(buf: seq<char>, pos: nat, state: State, cur: nat, slots: seq<ConfigLine>): (r: Outcome)
    requires pos <= |buf| && cur < AttCount && |slots| == AttCount
    ensures r.Finished? ==> |r.slots| == AttCount
    decreases |buf| - pos
  {
    match NextToken(buf, pos, state)
    case Stuck => Hangs
    case Scanned(Token(kind, text, next)) =>
      if kind == TokenEof then Finished(true, slots)
      else
        match state
        case ExpName =>
          if kind != TokenAttName then Finished(false, slots)
          else Run(buf, next, ExpEqual, Lookup(text, 0), slots)
        case ExpEqual =>
          if kind != TokenEqual then Finished(false, slots)
          else Run(buf, next, ExpValue, cur, slots)
        case ExpValue =>
          if kind != TokenValue then Finished(false, slots)
          else if |text| > MaxValueLen then Overruns
          else if slots[cur].defined == CfgFalse then
            Run(buf, next, ExpName, cur, slots[cur := slots[cur].(attValue := text, defined := CfgTrue)])
          else
            // the value is copied before the duplicate is noticed
            Finished(false, slots[cur := slots[cur].(attValue := text)])
        case ExpNone =>
          // the switch's default branch only prints; the loop goes on
          Run(buf, next, ExpNone, cur, slots)
  }

  /** A whole parse of the buffer, as MQTTCfgParser_Config starts it. */
  function Parse(buf: seq<char>, slots: seq<ConfigLine>): (r: Outcome)
    requires |slots| == AttCount
    ensures r.Finished? ==> |r.slots| == AttCount
    ensures ShortRuns(buf) ==> r.Finished?
  {
    assert ShortRuns(buf) ==> Run(buf, 0, ExpName, 0, slots).Finished? by {
      if ShortRuns(buf) {
        ShortRunsFinish(buf, 0, ExpName, 0, slots);
      }
    }
    Run(buf, 0, ExpName, 0, slots)
  }

  /** One round of the loop: the outcome from a cursor, by the state and the token found there. */
  lemma RunStep(buf: seq<char>, pos: nat, state: State, cur: nat, slots: seq<ConfigLine>,
                kind: TokenType, text: string, next: nat)
    requires pos <= |buf| && cur < AttCount && |slots| == AttCount
    requires NextToken(buf, pos, state) == Scanned(Token(kind, text, next))
    ensures next <= |buf|
    ensures kind == TokenEof ==> Run(buf, pos, state, cur, slots) == Finished(true, slots)
    ensures state == ExpName && kind != TokenEof && kind != TokenAttName ==>
      Run(buf, pos, state, cur, slots) == Finished(false, slots)
    ensures state == ExpName && kind == TokenAttName ==>
      IsName(text) && Run(buf, pos, state, cur, slots) == Run(buf, next, ExpEqual, Lookup(text, 0), slots)
    ensures state == ExpEqual && kind != TokenEof && kind != TokenEqual ==>
      Run(buf, pos, state, cur, slots) == Finished(false, slots)
    ensures state == ExpEqual && kind == TokenEqual ==>
      Run(buf, pos, state, cur, slots) == Run(buf, next, ExpValue, cur, slots)
    ensures state == ExpValue && kind != TokenEof && kind != TokenValue ==>
      Run(buf, pos, state, cur, slots) == Finished(false, slots)
    ensures state == ExpValue && kind == TokenValue && |text| > MaxValueLen ==>
      Run(buf, pos, state, cur, slots) == Overruns
    ensures state == ExpValue && kind == TokenValue && |text| <= MaxValueLen && slots[cur].defined == CfgFalse ==>
      Run(buf, pos, state, cur, slots) ==
        Run(buf, next, ExpName, cur, slots[cur := slots[cur].(attValue := text, defined := CfgTrue)])
    ensures state == ExpValue && kind == TokenValue && |text| <= MaxValueLen && slots[cur].defined != CfgFalse ==>
      Run(buf, pos, state, cur, slots) == Finished(false, slots[cur := slots[cur].(attValue := text)])
    ensures state == ExpNone && kind != TokenEof ==>
      Run(buf, pos, state, cur, slots) == Run(buf, next, ExpNone, cur, slots)
  {
  }

  /** Two cursors at which the expected state sees the same token lead to the same outcome. */
  lemma RunSameToken(buf: seq<char>, p: nat, q: nat, state: State, cur: nat, slots: seq<ConfigLine>)
    requires p <= |buf| && q <= |buf| && cur < AttCount && |slots| == AttCount
    requires NextToken(buf, p, state) == NextToken(buf, q, state)
    ensures Run(buf, p, state, cur, slots) == Run(buf, q, state, cur, slots)
  {
  }

  /** Flags that are CFG_TRUE or CFG_FALSE and values that fit their slots. */
  ghost predicate Fits(slots: seq<ConfigLine>)
  {
    |slots| == AttCount &&
    forall i | 0 <= i < AttCount ::
      (slots[i].defined == CfgFalse || slots[i].defined == CfgTrue) && |slots[i].attValue| <= MaxValueLen
  }

  /**
   * How a parse may change the table: names, defaults and `ignore` stay, a
   * defined flag stays defined, and the result still fits.
   */
  ghost predicate Evolves(before: seq<ConfigLine>, after: seq<ConfigLine>)
  {
    |before| == AttCount && Fits(after) &&
    forall i | 0 <= i < AttCount ::
      after[i].attName == before[i].attName && after[i].defaultValue == before[i].defaultValue &&
      after[i].ignore == before[i].ignore &&
      (before[i].defined == CfgTrue ==> after[i].defined == CfgTrue)
  }

  lemma EvolvesTransitive(a: seq<ConfigLine>, b: seq<ConfigLine>, c: seq<ConfigLine>)
    requires Evolves(a, b) && Evolves(b, c)
    ensures Evolves(a, c)
  {
  }

  /** Storing a value that fits and setting the flag is an allowed change. */
  lemma StoreEvolves(slots: seq<ConfigLine>, i: nat, v: string)
    requires Fits(slots) && i < AttCount && |v| <= MaxValueLen
    ensures Evolves(slots, slots[i := slots[i].(attValue := v, defined := CfgTrue)])
  {
  }

  /** Every finished parse changes the table only as `Evolves` allows. */
  lemma {:induction false} RunEvolves(buf: seq<char>, pos: nat, state: State, cur: nat, slots: seq<ConfigLine>)
    requires pos <= |buf| && cur < AttCount && Fits(slots)
    ensures Run(buf, pos, state, cur, slots).Finished? ==> Evolves(slots, Run(buf, pos, state, cur, slots).slots)
    decreases |buf| - pos
  {
    match NextToken(buf, pos, state)
    case Stuck =>
    case Scanned(Token(kind, text, next)) =>
      if kind != TokenEof {
        match state
        case ExpName =>
          if kind == TokenAttName {
            RunEvolves(buf, next, ExpEqual, Lookup(text, 0), slots);
          }
        case ExpEqual =>
          if kind == TokenEqual {
            RunEvolves(buf, next, ExpValue, cur, slots);
          }
        case ExpValue =>
          if kind == TokenValue && |text| <= MaxValueLen {
            var set1 := slots[cur := slots[cur].(attValue := text, defined := CfgTrue)];
            StoreEvolves(slots, cur, text);
            if slots[cur].defined == CfgFalse {
              RunEvolves(buf, next, ExpName, cur, set1);
              if Run(buf, next, ExpName, cur, set1).Finished? {
                EvolvesTransitive(slots, set1, Run(buf, next, ExpName, cur, set1).slots);
              }
            } else {
              assert set1 == slots[cur := slots[cur].(attValue := text)];
            }
          }
        case ExpNone =>
          RunEvolves(buf, next, ExpNone, cur, slots);
      }
    else {
      assert Evolves(slots, slots);
    }
  }

  /**
   * A parse keeps the table well shaped, and never clears a flag, so slots
   * set before a failure keep being defined.
   */
  lemma RunKeepsShape(buf: seq<char>, pos: nat, state: State, cur: nat, slots: seq<ConfigLine>, d: BuildDefaults)
    requires pos <= |buf| && cur < AttCount && WellShaped(slots, d)
    ensures Run(buf, pos, state, cur, slots).Finished? ==>
      var out := Run(buf, pos, state, cur, slots).slots;
      WellShaped(out, d) &&
      forall i | 0 <= i < AttCount && slots[i].defined == CfgTrue :: out[i].defined == CfgTrue
  {
    RunEvolves(buf, pos, state, cur, slots);
  }

  /** The state machine never enters STAT_EXP_ATT_NONE: started elsewhere, no token leads there. */
  lemma {:induction false} NoneIsNeverEntered(buf: seq<char>, pos: nat, state: State, cur: nat,
                                              slots: seq<ConfigLine>)
    requires pos <= |buf| && cur < AttCount && |slots| == AttCount && state != ExpNone
    ensures Run(buf, pos, state, cur, slots) == RunWithoutNone(buf, pos, state, cur, slots)
    decreases |buf| - pos
  {
    match NextToken(buf, pos, state)
    case Stuck =>
    case Scanned(Token(kind, text, next)) =>
      if kind != TokenEof {
        match state
        case ExpName =>
          if kind == TokenAttName {
            NoneIsNeverEntered(buf, next, ExpEqual, Lookup(text, 0), slots);
          }
        case ExpEqual =>
          if kind == TokenEqual {
            NoneIsNeverEntered(buf, next, ExpValue, cur, slots);
          }
        case ExpValue =>
          if kind == TokenValue && |text| <= MaxValueLen && slots[cur].defined == CfgFalse {
            NoneIsNeverEntered(buf, next, ExpName, cur, slots[cur := slots[cur].(attValue := text, defined := CfgTrue)]);
          }
      }
  }

  /** The three-state machine NAME -> EQUAL -> VALUE -> NAME, with no default branch. */
  function RunWithoutNone(buf: seq<char>, pos: nat, state: State, cur: nat, slots: seq<ConfigLine>): Outcome
    requires pos <= |buf| && cur < AttCount && |slots| == AttCount && state != ExpNone
    decreases |buf| - pos
  {
    match NextToken(buf, pos, state)
    case Stuck => Hangs
    case Scanned(Token(kind, text, next)) =>
      if kind == TokenEof then Finished(true, slots)
      else if state == ExpName then
        if kind != TokenAttName then Finished(false, slots)
        else RunWithoutNone(buf, next, ExpEqual, Lookup(text, 0), slots)
      else if state == ExpEqual then
        if kind != TokenEqual then Finished(false, slots)
        else RunWithoutNone(buf, next, ExpValue, cur, slots)
      else if kind != TokenValue then Finished(false, slots)
      else if |text| > MaxValueLen then Overruns
      else if slots[cur].defined == CfgFalse then
        RunWithoutNone(buf, next, ExpName, cur, slots[cur := slots[cur].(attValue := text, defined := CfgTrue)])
      else
        Finished(false, slots[cur := slots[cur].(attValue := text)])
  }

  /** Every run between CR, LF and TAB fits a value slot. */
  ghost predicate ShortRuns(buf: seq<char>)
  {
    forall i | 0 <= i <= |buf| :: RunEnd(buf, i, ValueStops) - i <= MaxValueLen
  }

  /** A run that stops at more characters ends no later. */
  lemma NameRunWithinValueRun(buf: seq<char>, i: nat)
    requires i <= |buf|
    ensures RunEnd(buf, i, NameStops) <= RunEnd(buf, i, ValueStops)
  {
  }

  /** When every line segment fits a slot, the parse neither hangs nor overruns, from any state. */
  lemma {:induction false} ShortRunsFinish(buf: seq<char>, pos: nat, state: State, cur: nat, slots: seq<ConfigLine>)
    requires pos <= |buf| && cur < AttCount && |slots| == AttCount && ShortRuns(buf)
    ensures Run(buf, pos, state, cur, slots).Finished?
    decreases |buf| - pos
  {
    var p := TokenStart(buf, pos, state);
    NameRunWithinValueRun(buf, p);
    match NextToken(buf, pos, state)
    case Stuck =>
      assert false;
    case Scanned(Token(kind, text, next)) =>
      if kind != TokenEof {
        match state
        case ExpName =>
          if kind == TokenAttName {
            ShortRunsFinish(buf, next, ExpEqual, Lookup(text, 0), slots);
          }
        case ExpEqual =>
          if kind == TokenEqual {
            ShortRunsFinish(buf, next, ExpValue, cur, slots);
          }
        case ExpValue =>
          if kind == TokenValue {
            assert |text| <= MaxValueLen;
            if slots[cur].defined == CfgFalse {
              ShortRunsFinish(buf, next, ExpName, cur, slots[cur := slots[cur].(attValue := text, defined := CfgTrue)]);
            }
          }
        case ExpNone =>
          ShortRunsFinish(buf, next, ExpNone, cur, slots);
      }
  }

  // ---------------------------------------------------------------------------
  // The meaning of a file, line by line
  // ---------------------------------------------------------------------------

  /** One line of a configuration file as its documentation describes it. */
  datatype Line = Assign(name: string, value: string) | Comment(text: string) | Blank

  /** A value the grammar VALUE accepts and that fits its slot. */
  predicate GoodValue(v: string)
  {
    0 < |v| <= MaxValueLen && v[0] != ' ' && v[0] != '\t' && v[0] != '=' && !IsName(v) &&
    forall k | 0 <= k < |v| :: v[k] !in ValueStops && v[k] != '\0'
  }

  predicate WellFormedLine(l: Line)
  {
    match l
    case Assign(n, v) => IsName(n) && GoodValue(v)
    case Comment(t) => forall k | 0 <= k < |t| :: t[k] !in LineEnds && t[k] != '\0'
    case Blank => true
  }

  predicate WellFormed(ls: seq<Line>)
  {
    forall k | 0 <= k < |ls| :: WellFormedLine(ls[k])
  }

  /** The text of one line, ended by LF. */
  function LineText(l: Line): string
    requires WellFormedLine(l)
  {
    match l
    case Assign(n, v) => n + "=" + v + "\n"
    case Comment(t) => "#" + t + "\n"
    case Blank => "\n"
  }

  /** The text of a file. */
  function Render(ls: seq<Line>): string
    requires WellFormed(ls)
  {
    if ls == [] then "" else LineText(ls[0]) + Render(ls[1..])
  }

  /** Whether a line assigns a slot that an earlier line (or the table) already defined. */
  predicate Clash(slots: seq<ConfigLine>, l: Line)
    requires |slots| == AttCount && WellFormedLine(l)
  {
    l.Assign? && slots[Lookup(l.name, 0)].defined != CfgFalse
  }

  /**
   * The table after a line: an assignment stores its value in the named
   * slot and marks it defined (a clashing one only stores the value);
   * comments and blank lines change nothing.
   */
  function Stored(slots: seq<ConfigLine>, l: Line): (r: seq<ConfigLine>)
    requires |slots| == AttCount && WellFormedLine(l)
    ensures |r| == AttCount
  {
    match l
    case Assign(n, v) =>
      var a := Lookup(n, 0);
      if slots[a].defined == CfgFalse then slots[a := slots[a].(attValue := v, defined := CfgTrue)]
      else slots[a := slots[a].(attValue := v)]
    case _ => slots
  }

  /** The slot selected after a line: the assigned one, or the previous one. */
  function Selected(cur: nat, l: Line): nat
    requires WellFormedLine(l)
  {
    if l.Assign? then Lookup(l.name, 0) else cur
  }

  /**
   * The reference meaning: lines are applied in order; the first clashing
   * assignment fails the file, with its value already stored.
   */
  function Expected(slots: seq<ConfigLine>, ls: seq<Line>): (r: Outcome)
    requires |slots| == AttCount && WellFormed(ls)
    ensures r.Finished? && |r.slots| == AttCount
    decreases |ls|
  {
    if ls == [] then Finished(true, slots)
    else if Clash(slots, ls[0]) then Finished(false, Stored(slots, ls[0]))
    else Expected(Stored(slots, ls[0]), ls[1..])
  }

  /** A blank line is skipped where a name is expected. */
  lemma BlankLineStep(buf: seq<char>, p: nat, q: nat, cur: nat, slots: seq<ConfigLine>)
    requires p < |buf| && buf[p] == '\n' && q == p + 1 && cur < AttCount && |slots| == AttCount
    ensures Run(buf, p, ExpName, cur, slots) == Run(buf, q, ExpName, cur, slots)
  {
    SkipSetIsSkipped(buf, p, ExpName);
    RunSameToken(buf, p, q, ExpName, cur, slots);
  }

  /** A comment line, up to and including its LF, is skipped where a name is expected. */
  lemma CommentLineStep(buf: seq<char>, p: nat, e: nat, q: nat, cur: nat, slots: seq<ConfigLine>)
    requires p < e < |buf| && buf[p] == '#' && buf[e] == '\n' && q == e + 1
    requires forall k | p < k < e :: buf[k] !in LineEnds
    requires cur < AttCount && |slots| == AttCount
    ensures Run(buf, p, ExpName, cur, slots) == Run(buf, q, ExpName, cur, slots)
  {
    assert Run(buf, p, ExpName, cur, slots) == Run(buf, e, ExpName, cur, slots) by {
      CommentIsSkipped(buf, p, e);
      RunSameToken(buf, p, e, ExpName, cur, slots);
    }
    BlankLineStep(buf, e, q, cur, slots);
  }

  /** A good value is classified as a value, never as a name or end of input. */
  lemma GoodValueIsValue(v: string)
    requires GoodValue(v)
    ensures Classify(v) == TokenValue
  {
  }

  /** An accepted name selects the slot the lookup loop finds and moves to STAT_EXP_ATT_EQUAL. */
  lemma NameStep(buf: seq<char>, p: nat, e: nat, cur: nat, slots: seq<ConfigLine>, n: string, a: nat)
    requires e <= |buf| && cur < AttCount && |slots| == AttCount && IsName(n) && a == Lookup(n, 0)
    requires p <= |buf| && NextToken(buf, p, ExpName) == Scanned(Token(TokenAttName, n, e))
    ensures Run(buf, p, ExpName, cur, slots) == Run(buf, e, ExpEqual, a, slots)
  {
  }

  /** An accepted '=' moves to STAT_EXP_ATT_VALUE. */
  lemma EqualStep(buf: seq<char>, p: nat, q: nat, cur: nat, slots: seq<ConfigLine>)
    requires p < |buf| && buf[p] == '=' && q == p + 1 && cur < AttCount && |slots| == AttCount
    ensures Run(buf, p, ExpEqual, cur, slots) == Run(buf, q, ExpValue, cur, slots)
  {
    EqualInAnyRole(buf, p, ExpEqual);
  }

  /** An accepted value that fits is stored; a free slot becomes defined, a defined one fails the parse. */
  lemma ValueStep(buf: seq<char>, p: nat, e: nat, cur: nat, slots: seq<ConfigLine>, v: string)
    requires p <= e <= |buf| && cur < AttCount && |slots| == AttCount && |v| <= MaxValueLen
    requires NextToken(buf, p, ExpValue) == Scanned(Token(TokenValue, v, e))
    ensures Run(buf, p, ExpValue, cur, slots) ==
      if slots[cur].defined == CfgFalse
      then Run(buf, e, ExpName, cur, slots[cur := slots[cur].(attValue := v, defined := CfgTrue)])
      else Finished(false, slots[cur := slots[cur].(attValue := v)])
  {
  }

  /**
   * NAME=VALUE followed by LF, with the '=' at `eq` and the LF at `ve`: the
   * value is stored in the named slot; if the slot was free it becomes
   * defined and parsing resumes after the LF, otherwise the parse fails with
   * the value already stored.
   */
  lemma AssignLineStep(buf: seq<char>, p: nat, eq: nat, ve: nat, q: nat, n: string, a: nat, v: string,
                       cur: nat, slots: seq<ConfigLine>)
    requires IsName(n) && a == Lookup(n, 0) && GoodValue(v) && cur < AttCount && |slots| == AttCount
    requires eq == p + |n| && ve == eq + 1 + |v| && ve < |buf| && q == ve + 1
    requires buf[p..eq] == n && buf[eq] == '=' && buf[eq + 1..ve] == v && buf[ve] == '\n'
    ensures Run(buf, p, ExpName, cur, slots) ==
      if slots[a].defined == CfgFalse
      then Run(buf, q, ExpName, a, slots[a := slots[a].(attValue := v, defined := CfgTrue)])
      else Finished(false, slots[a := slots[a].(attValue := v)])
  {
    var vs := eq + 1;
    assert buf[vs..ve] == v;
    NameIsOneToken(buf, p, eq, n, ExpName);
    NameStep(buf, p, eq, cur, slots, n, a);
    EqualStep(buf, eq, vs, a, slots);
    ValueRunIsToken(buf, vs, ve, v);
    GoodValueIsValue(v);
    ValueStep(buf, vs, ve, a, slots, v);
    if slots[a].defined == CfgFalse {
      BlankLineStep(buf, ve, q, a, slots[a := slots[a].(attValue := v, defined := CfgTrue)]);
    }
  }

  /** A piece of a known stretch of the buffer is the matching piece of its text. */
  lemma SliceOfSlice(buf: seq<char>, p: nat, q: nat, line: string, i: nat, j: nat)
    requires q == p + |line| && q <= |buf| && buf[p..q] == line && i <= j <= |line|
    ensures buf[p + i..p + j] == line[i..j]
  {
    forall k | 0 <= k < j - i
      ensures buf[p + i..p + j][k] == line[i..j][k]
    {
      assert buf[p + i + k] == buf[p..q][i + k];
    }
  }

  /** The text of a non-empty file starts with its first line, followed by the rest. */
  lemma RenderSplit(buf: seq<char>, p: nat, ls: seq<Line>)
    requires WellFormed(ls) && ls != [] && p <= |buf| && buf[p..] == Render(ls)
    ensures WellFormedLine(ls[0]) && WellFormed(ls[1..])
    ensures p + |LineText(ls[0])| <= |buf|
    ensures buf[p..p + |LineText(ls[0])|] == LineText(ls[0])
    ensures buf[p + |LineText(ls[0])|..] == Render(ls[1..])
  {
    assert WellFormedLine(ls[0]);
    assert WellFormed(ls[1..]);
    SliceOfConcat(buf, p, LineText(ls[0]), Render(ls[1..]));
  }

  /** A suffix that is the concatenation of two texts holds the first, then the second. */
  lemma SliceOfConcat(buf: seq<char>, p: nat, a: string, b: string)
    requires p <= |buf| && buf[p..] == a + b
    ensures p + |a| <= |buf| && buf[p..p + |a|] == a && buf[p + |a|..] == b
  {
    assert buf[p..p + |a|] == buf[p..][..|a|];
    assert buf[p + |a|..] == buf[p..][|a|..];
  }

  /** A rendered comment line, read from a name position, is passed over. */
  lemma CommentRendered(buf: seq<char>, p: nat, q: nat, t: string, cur: nat, slots: seq<ConfigLine>)
    requires WellFormedLine(Comment(t)) && q == p + |LineText(Comment(t))| && q <= |buf|
    requires buf[p..q] == LineText(Comment(t)) && cur < AttCount && |slots| == AttCount
    ensures Run(buf, p, ExpName, cur, slots) == Run(buf, q, ExpName, cur, slots)
  {
    var line := LineText(Comment(t));
    var e := p + 1 + |t|;
    assert buf[p] == line[0];
    assert buf[e] == line[1 + |t|];
    forall k | p < k < e
      ensures buf[k] !in LineEnds
    {
      assert buf[k] == line[k - p] == t[k - p - 1];
    }
    CommentLineStep(buf, p, e, q, cur, slots);
  }

  /** Where the name, the '=', the value and the LF of a rendered assignment sit in the buffer. */
  lemma AssignLayout(buf: seq<char>, p: nat, eq: nat, ve: nat, q: nat, n: string, v: string)
    requires eq == p + |n| && ve == eq + 1 + |v| && q == ve + 1 && q <= |buf|
    requires buf[p..q] == n + "=" + v + "\n"
    ensures buf[p..eq] == n && buf[eq] == '=' && buf[eq + 1..ve] == v && buf[ve] == '\n'
  {
    var line := n + "=" + v + "\n";
    SliceOfSlice(buf, p, q, line, 0, |n|);
    assert line[0..|n|] == n;
    assert buf[eq] == line[|n|];
    SliceOfSlice(buf, p, q, line, |n| + 1, |n| + 1 + |v|);
    assert line[|n| + 1..|n| + 1 + |v|] == v;
    assert buf[ve] == line[|n| + 1 + |v|];
  }

  /** A rendered assignment line, read from a name position. */
  lemma AssignRendered(buf: seq<char>, p: nat, q: nat, n: string, a: nat, v: string, cur: nat, slots: seq<ConfigLine>)
    requires WellFormedLine(Assign(n, v)) && a == Lookup(n, 0) && q == p + |LineText(Assign(n, v))| && q <= |buf|
    requires buf[p..q] == LineText(Assign(n, v)) && cur < AttCount && |slots| == AttCount
    ensures Run(buf, p, ExpName, cur, slots) ==
      if slots[a].defined == CfgFalse
      then Run(buf, q, ExpName, a, slots[a := slots[a].(attValue := v, defined := CfgTrue)])
      else Finished(false, slots[a := slots[a].(attValue := v)])
  {
    var eq := p + |n|;
    var ve := eq + 1 + |v|;
    AssignLayout(buf, p, eq, ve, q, n, v);
    AssignLineStep(buf, p, eq, ve, q, n, a, v, cur, slots);
  }

  /** One rendered line, read from a name position. */
  lemma LineStep(buf: seq<char>, p: nat, q: nat, l: Line, cur: nat, slots: seq<ConfigLine>)
    requires WellFormedLine(l) && q == p + |LineText(l)| && q <= |buf| && buf[p..q] == LineText(l)
    requires cur < AttCount && |slots| == AttCount
    ensures Run(buf, p, ExpName, cur, slots) ==
      if Clash(slots, l) then Finished(false, Stored(slots, l))
      else Run(buf, q, ExpName, Selected(cur, l), Stored(slots, l))
  {
    match l
    case Blank =>
      assert buf[p] == buf[p..q][0];
      BlankLineStep(buf, p, q, cur, slots);
    case Comment(t) =>
      CommentRendered(buf, p, q, t, cur, slots);
    case Assign(n, v) =>
      AssignRendered(buf, p, q, n, Lookup(n, 0), v, cur, slots);
  }

  /** The first line of a rendered file, read from a name position: one step of both meanings. */
  lemma RenderedHead(buf: seq<char>, p: nat, ls: seq<Line>, cur: nat, slots: seq<ConfigLine>) returns (q: nat)
    requires WellFormed(ls) && ls != [] && p <= |buf| && buf[p..] == Render(ls)
    requires cur < AttCount && |slots| == AttCount
    ensures WellFormedLine(ls[0]) && WellFormed(ls[1..]) && q <= |buf| && buf[q..] == Render(ls[1..])
    ensures Selected(cur, ls[0]) < AttCount
    ensures Clash(slots, ls[0]) ==>
      Run(buf, p, ExpName, cur, slots) == Expected(slots, ls)
    ensures !Clash(slots, ls[0]) ==>
      Run(buf, p, ExpName, cur, slots) == Run(buf, q, ExpName, Selected(cur, ls[0]), Stored(slots, ls[0])) &&
      Expected(slots, ls) == Expected(Stored(slots, ls[0]), ls[1..])
  {
    RenderSplit(buf, p, ls);
    q := p + |LineText(ls[0])|;
    LineStep(buf, p, q, ls[0], cur, slots);
  }

  /** Parsing the text of a well-formed file from a name position gives its line-by-line meaning. */
  lemma {:induction false} RenderedFileParses(buf: seq<char>, p: nat, ls: seq<Line>, cur: nat, slots: seq<ConfigLine>)
    requires WellFormed(ls) && p <= |buf| && buf[p..] == Render(ls)
    requires cur < AttCount && |slots| == AttCount
    ensures Run(buf, p, ExpName, cur, slots) == Expected(slots, ls)
    decreases |ls|
  {
    if ls == [] {
      assert p == |buf|;
      EofAtEnd(buf, ExpName);
    } else {
      var q := RenderedHead(buf, p, ls, cur, slots);
      if !Clash(slots, ls[0]) {
        RenderedFileParses(buf, q, ls[1..], Selected(cur, ls[0]), Stored(slots, ls[0]));
      }
    }
  }

  // ---------------------------------------------------------------------------
  // What the line-by-line meaning promises
  // ---------------------------------------------------------------------------

  /** A whole parse of a rendered file is its line-by-line meaning. */
  lemma RenderedParse(slots: seq<ConfigLine>, ls: seq<Line>)
    requires |slots| == AttCount && WellFormed(ls)
    ensures Parse(Render(ls), slots) == Expected(slots, ls)
  {
    var buf := Render(ls);
    assert buf[0..] == buf;
    RenderedFileParses(buf, 0, ls, 0, slots);
  }

  /** Whether some line assigns the attribute called `n`. */
  ghost predicate Assigns(ls: seq<Line>, n: string)
  {
    exists k | 0 <= k < |ls| :: ls[k].Assign? && ls[k].name == n
  }

  /** No attribute is assigned twice. */
  ghost predicate DistinctAssignments(ls: seq<Line>)
  {
    forall j, k | 0 <= j < k < |ls| && ls[j].Assign? && ls[k].Assign? :: ls[j].name != ls[k].name
  }

  /** With no attribute assigned twice, the first line's attribute is not assigned again later. */
  lemma HeadNotReassigned(ls: seq<Line>)
    requires DistinctAssignments(ls) && 0 < |ls| && ls[0].Assign?
    ensures !Assigns(ls[1..], ls[0].name)
  {
    forall j | 0 <= j < |ls| - 1
      ensures !(ls[1..][j].Assign? && ls[1..][j].name == ls[0].name)
    {
      assert ls[1..][j] == ls[j + 1];
    }
  }

  /** An attribute no line assigns is not assigned by the lines after the first either. */
  lemma TailAssignsLess(ls: seq<Line>, n: string)
    requires 0 < |ls| && !Assigns(ls, n)
    ensures !Assigns(ls[1..], n)
  {
    forall j | 0 <= j < |ls| - 1
      ensures !(ls[1..][j].Assign? && ls[1..][j].name == n)
    {
      assert ls[1..][j] == ls[j + 1];
    }
  }

  /** Distinct names select distinct slots. */
  lemma LookupInjective(m: string, n: string)
    requires IsName(m) && IsName(n) && m != n
    ensures Lookup(m, 0) != Lookup(n, 0)
  {
  }

  /** A slot whose attribute no line assigns leaves the file as it entered, whether or not the file fails. */
  lemma {:induction false} ExpectedKeepsUnassigned(slots: seq<ConfigLine>, ls: seq<Line>, i: nat)
    requires |slots| == AttCount && WellFormed(ls) && i < AttCount && !Assigns(ls, Names[i])
    ensures Expected(slots, ls).slots[i] == slots[i]
    decreases |ls|
  {
    if ls != [] {
      var tail := ls[1..];
      assert WellFormed(tail);
      var next := Stored(slots, ls[0]);
      assert next[i] == slots[i] by {
        if ls[0].Assign? {
          assert ls[0].name != Names[i];
        }
      }
      if !Clash(slots, ls[0]) {
        ExpectedKeepsUnassigned(next, tail, i);
      }
    }
  }

  /** A file read after a successful one continues from the table it left. */
  lemma {:induction false} ExpectedAppend(slots: seq<ConfigLine>, pre: seq<Line>, post: seq<Line>)
    requires |slots| == AttCount && WellFormed(pre) && WellFormed(post)
    requires Expected(slots, pre).ok
    ensures WellFormed(pre + post)
    ensures Expected(slots, pre + post) == Expected(Expected(slots, pre).slots, post)
    decreases |pre|
  {
    assert WellFormed(pre + post);
    if pre != [] {
      var next := Stored(slots, pre[0]);
      assert !Clash(slots, pre[0]);
      assert WellFormed(pre[1..]);
      assert Expected(slots, pre) == Expected(next, pre[1..]);
      assert (pre + post)[0] == pre[0];
      assert (pre + post)[1..] == pre[1..] + post;
      assert Expected(slots, pre + post) == Expected(next, pre[1..] + post);
      ExpectedAppend(next, pre[1..], post);
    } else {
      assert pre + post == post;
    }
  }

  /**
   * Assignments to distinct, still undefined attributes all succeed: each
   * named slot holds its value and is defined, every other slot is unchanged.
   */
  lemma {:induction false} DistinctAssignmentsResolve(slots: seq<ConfigLine>, ls: seq<Line>)
    requires |slots| == AttCount && WellFormed(ls) && DistinctAssignments(ls)
    requires forall k | 0 <= k < |ls| && ls[k].Assign? :: slots[Lookup(ls[k].name, 0)].defined == CfgFalse
    ensures Expected(slots, ls).ok
    ensures forall k | 0 <= k < |ls| && ls[k].Assign? ::
      Expected(slots, ls).slots[Lookup(ls[k].name, 0)] ==
        slots[Lookup(ls[k].name, 0)].(attValue := ls[k].value, defined := CfgTrue)
    ensures forall i | 0 <= i < AttCount && !Assigns(ls, Names[i]) :: Expected(slots, ls).slots[i] == slots[i]
    decreases |ls|
  {
    if ls != [] {
      var l := ls[0];
      var tail := ls[1..];
      var next := Stored(slots, l);
      assert WellFormed(tail);
      assert DistinctAssignments(tail) by {
        forall j, k | 0 <= j < k < |tail| && tail[j].Assign? && tail[k].Assign?
          ensures tail[j].name != tail[k].name
        {
          assert ls[j + 1] == tail[j] && ls[k + 1] == tail[k];
        }
      }
      forall k | 0 <= k < |tail| && tail[k].Assign?
        ensures next[Lookup(tail[k].name, 0)] == slots[Lookup(tail[k].name, 0)]
      {
        assert ls[k + 1] == tail[k];
        if l.Assign? {
          LookupInjective(l.name, tail[k].name);
        }
      }
      DistinctAssignmentsResolve(next, tail);
      var r := Expected(next, tail);
      assert Expected(slots, ls) == r;
      forall k | 0 <= k < |ls| && ls[k].Assign?
        ensures r.slots[Lookup(ls[k].name, 0)] == slots[Lookup(ls[k].name, 0)].(attValue := ls[k].value, defined := CfgTrue)
      {
        if k == 0 {
          var a := Lookup(l.name, 0);
          assert Names[a] == l.name;
          HeadNotReassigned(ls);
        } else {
          assert ls[k] == tail[k - 1];
        }
      }
      forall i | 0 <= i < AttCount && !Assigns(ls, Names[i])
        ensures r.slots[i] == slots[i]
      {
        TailAssignsLess(ls, Names[i]);
        if l.Assign? {
          assert !(ls[0].Assign? && ls[0].name == Names[i]);
          assert Lookup(l.name, 0) != i;
        }
      }
    }
  }

  /**
   * An attribute assigned a second time fails the file: the second value is
   * stored, the slot stays defined, and the lines after it are not read.
   */
  lemma SecondAssignmentFails(slots: seq<ConfigLine>, pre: seq<Line>, n: string, v: string, post: seq<Line>)
    requires |slots| == AttCount && WellFormed(pre) && WellFormed(post)
    requires WellFormedLine(Assign(n, v)) && Expected(slots, pre).ok
    requires Assigns(pre, n) || slots[Lookup(n, 0)].defined != CfgFalse
    ensures WellFormed(pre + [Assign(n, v)] + post)
    ensures var r := Expected(slots, pre + [Assign(n, v)] + post);
      !r.ok && r.slots[Lookup(n, 0)].attValue == v && r.slots[Lookup(n, 0)].defined != CfgFalse
  {
    var ls := pre + [Assign(n, v)] + post;
    var rest := [Assign(n, v)] + post;
    assert ls == pre + rest;
    assert WellFormed(rest);
    ExpectedAppend(slots, pre, rest);
    var mid := Expected(slots, pre).slots;
    ExpectedDefines(slots, pre, n);
    assert rest[0] == Assign(n, v);
  }

  /** After a successful file, every assigned attribute is defined. */
  lemma {:induction false} ExpectedDefines(slots: seq<ConfigLine>, ls: seq<Line>, n: string)
    requires |slots| == AttCount && WellFormed(ls) && Expected(slots, ls).ok && IsName(n)
    requires Assigns(ls, n) || slots[Lookup(n, 0)].defined != CfgFalse
    ensures Expected(slots, ls).slots[Lookup(n, 0)].defined != CfgFalse
    decreases |ls|
  {
    if ls != [] {
      var l, tail := ls[0], ls[1..];
      assert WellFormed(tail);
      var next := Stored(slots, l);
      assert !Clash(slots, l);
      assert Expected(slots, ls) == Expected(next, tail);
      StoredDefines(slots, l, n);
      if !(l.Assign? && l.name == n) && Assigns(ls, n) {
        TailAssigns(ls, n);
      }
      ExpectedDefines(next, tail, n);
    }
  }

  /** A line that assigns `n` defines its slot; any other line leaves that slot alone. */
  lemma StoredDefines(slots: seq<ConfigLine>, l: Line, n: string)
    requires |slots| == AttCount && WellFormedLine(l) && IsName(n)
    ensures l.Assign? && l.name == n ==> Stored(slots, l)[Lookup(n, 0)].defined != CfgFalse
    ensures !(l.Assign? && l.name == n) ==> Stored(slots, l)[Lookup(n, 0)] == slots[Lookup(n, 0)]
  {
    if l.Assign? && l.name != n {
      StoredElsewhere(slots, l.name, l.value, n);
    }
  }

  /** An assignment to another attribute leaves the slot of `n` alone. */
  lemma StoredElsewhere(slots: seq<ConfigLine>, m: string, v: string, n: string)
    requires |slots| == AttCount && WellFormedLine(Assign(m, v)) && IsName(n) && m != n
    ensures Stored(slots, Assign(m, v))[Lookup(n, 0)] == slots[Lookup(n, 0)]
  {
    LookupInjective(m, n);
  }

  /** An attribute assigned somewhere but not by the first line is assigned by the later lines. */
  lemma TailAssigns(ls: seq<Line>, n: string)
    requires Assigns(ls, n) && !(ls[0].Assign? && ls[0].name == n)
    ensures Assigns(ls[1..], n)
  {
    var k :| 0 <= k < |ls| && ls[k].Assign? && ls[k].name == n;
    assert ls[1..][k - 1] == ls[k];
  }

  // ---------------------------------------------------------------------------
  // Small files
  // ---------------------------------------------------------------------------

  /** An empty file is accepted and changes nothing. */
  lemma EmptyFileParses(slots: seq<ConfigLine>)
    requires |slots| == AttCount
    ensures Parse("", slots) == Finished(true, slots)
  {
    EofAtEnd("", ExpName);
  }

  /** The text of a file with a line put in front. */
  lemma RenderCons(l: Line, ls: seq<Line>)
    requires WellFormedLine(l) && WellFormed(ls)
    ensures WellFormed([l] + ls) && Render([l] + ls) == LineText(l) + Render(ls)
  {
    var all := [l] + ls;
    assert all[0] == l && all[1..] == ls;
    forall k | 0 <= k < |all|
      ensures WellFormedLine(all[k])
    {
      if k > 0 {
        assert all[k] == ls[k - 1];
      }
    }
  }

  /** The text of a two-line file. */
  lemma RenderTwo(l0: Line, l1: Line)
    requires WellFormedLine(l0) && WellFormedLine(l1)
    ensures WellFormed([l0, l1]) && Render([l0, l1]) == LineText(l0) + LineText(l1)
  {
    RenderCons(l1, []);
    assert [l1] + [] == [l1];
    RenderCons(l0, [l1]);
    assert [l0] + [l1] == [l0, l1];
  }

  /** The comment line "# wifi". */
  lemma WifiCommentText()
    ensures WellFormedLine(Comment(" wifi")) && LineText(Comment(" wifi")) == "# wifi\n"
  {
  }

  /** The assignment line "WIFISSID=home". */
  lemma WifiHomeText()
    ensures WellFormedLine(Assign("WIFISSID", "home")) && LineText(Assign("WIFISSID", "home")) == "WIFISSID=home\n"
    ensures Lookup("WIFISSID", 0) == AttWifiSsid
  {
    WifiSsidIsFirst();
    NonWordIsNotName("home", 0);
  }

  /** The lines of the file "# wifi", "WIFISSID=home". */
  lemma CommentedFileText()
    ensures WellFormedLine(Comment(" wifi")) && WellFormedLine(Assign("WIFISSID", "home"))
    ensures LineText(Comment(" wifi")) + LineText(Assign("WIFISSID", "home")) == "# wifi\nWIFISSID=home\n"
    ensures Lookup("WIFISSID", 0) == AttWifiSsid
  {
    WifiCommentText();
    WifiHomeText();
  }

  /** A comment line and an assignment: the comment is passed over and the value lands in its slot. */
  lemma CommentedFileParses(slots: seq<ConfigLine>)
    requires |slots| == AttCount && slots[AttWifiSsid].defined == CfgFalse
    ensures Parse("# wifi\nWIFISSID=home\n", slots) ==
      Finished(true, slots[AttWifiSsid := slots[AttWifiSsid].(attValue := "home", defined := CfgTrue)])
  {
    var l0, l1 := Comment(" wifi"), Assign("WIFISSID", "home");
    CommentedFileText();
    RenderTwo(l0, l1);
    var buf := "# wifi\nWIFISSID=home\n";
    assert buf[0..] == buf;
    RenderedFileParses(buf, 0, [l0, l1], 0, slots);
    assert [l0, l1][1..] == [l1] && [l1][1..] == [];
    var set1 := slots[AttWifiSsid := slots[AttWifiSsid].(attValue := "home", defined := CfgTrue)];
    assert Expected(slots, [l0, l1]) == Expected(slots, [l1]);
    assert Expected(slots, [l1]) == Expected(set1, []);
  }

  /** A file that is one name and a line end, with no '=', is accepted and stores nothing. */
  lemma NameWithoutValueParses(buf: seq<char>, n: string, e: nat, slots: seq<ConfigLine>)
    requires |slots| == AttCount && IsName(n)
    requires e == |n| && e + 1 == |buf| && buf[0..e] == n && buf[e] in LineEnds
    ensures Parse(buf, slots) == Finished(true, slots)
  {
    NameLineEndSkipped(buf, n, e, slots);
    EofAtEnd(buf, ExpEqual);
    assert Run(buf, e + 1, ExpEqual, Lookup(n, 0), slots) == Finished(true, slots);
  }

  /**
   * A line end after a name is white space to the '=' state: the parse goes
   * on with the row selected, whatever the next line holds.
   */
  lemma NameLineEndSkipped(buf: seq<char>, n: string, e: nat, slots: seq<ConfigLine>)
    requires |slots| == AttCount && IsName(n)
    requires e == |n| && e < |buf| && buf[0..e] == n && buf[e] in LineEnds
    ensures Parse(buf, slots) == Run(buf, e + 1, ExpEqual, Lookup(n, 0), slots)
  {
    var a := Lookup(n, 0);
    calc {
      Parse(buf, slots);
      Run(buf, 0, ExpName, 0, slots);
      { NameIsOneToken(buf, 0, e, n, ExpName);
        NameStep(buf, 0, e, 0, slots, n, a); }
      Run(buf, e, ExpEqual, a, slots);
      { SkipSetIsSkipped(buf, e, ExpEqual);
        RunSameToken(buf, e, e + 1, ExpEqual, a, slots); }
      Run(buf, e + 1, ExpEqual, a, slots);
    }
  }

  /** The '=' of an assignment may come on the line after the name. */
  lemma EqualOnNextLine(buf: seq<char>, n: string, e: nat, slots: seq<ConfigLine>)
    requires |slots| == AttCount && IsName(n)
    requires e == |n| && e + 1 < |buf| && buf[0..e] == n && buf[e] in LineEnds && buf[e + 1] == '='
    ensures Parse(buf, slots) == Run(buf, e + 2, ExpValue, Lookup(n, 0), slots)
  {
    NameLineEndSkipped(buf, n, e, slots);
    EqualStep(buf, e + 1, e + 2, Lookup(n, 0), slots);
  }

  /** A word on the line after a name, where the '=' should be, fails the file with nothing stored. */
  lemma WordAfterNameLineFails(buf: seq<char>, n: string, e: nat, w: string, f: nat, slots: seq<ConfigLine>)
    requires |slots| == AttCount && IsName(n)
    requires e == |n| && e < |buf| && buf[0..e] == n && buf[e] in LineEnds
    requires 0 < |w| <= MaxTokenLen && UpperWord(w)
    requires f == e + 1 + |w| && f <= |buf| && buf[e + 1..f] == w
    requires f == |buf| || buf[f] in NameStops
    ensures Parse(buf, slots) == Finished(false, slots)
  {
    var a := Lookup(n, 0);
    NameLineEndSkipped(buf, n, e, slots);
    WordIsOneToken(buf, e + 1, f, w, ExpEqual);
    RunStep(buf, e + 1, ExpEqual, a, slots, Classify(w), w, f);
  }

  /**
   * An empty value reads as end of input: a file that starts "NAME=" and a
   * line end is accepted whatever follows, and nothing is stored.
   */
  lemma EmptyValueEndsParse(buf: seq<char>, n: string, e: nat, slots: seq<ConfigLine>)
    requires |slots| == AttCount && IsName(n)
    requires e == |n| && e + 1 < |buf| && buf[0..e] == n && buf[e] == '=' && buf[e + 1] in LineEnds
    ensures Parse(buf, slots) == Finished(true, slots)
  {
    var a := Lookup(n, 0);
    NameIsOneToken(buf, 0, e, n, ExpName);
    NameStep(buf, 0, e, 0, slots, n, a);
    EqualStep(buf, e, e + 1, a, slots);
    LineEndEndsValue(buf, e + 1);
  }

  /** A leading space is not skipped before a name: it reads as end of input and the rest is ignored. */
  lemma LeadingSpaceEndsParse(buf: seq<char>, slots: seq<ConfigLine>)
    requires |slots| == AttCount && 0 < |buf| && buf[0] == ' '
    ensures Parse(buf, slots) == Finished(true, slots)
  {
    SpaceEndsInput(buf, 0, ExpName);
  }

  /** A value that spells an attribute name is read as a name, and the file fails with nothing stored. */
  lemma NameAsValueFails(buf: seq<char>, n: string, e: nat, m: string, f: nat, slots: seq<ConfigLine>)
    requires |slots| == AttCount && IsName(n) && IsName(m)
    requires e == |n| && f == e + 1 + |m| && f <= |buf|
    requires buf[0..e] == n && buf[e] == '=' && buf[e + 1..f] == m
    requires f == |buf| || buf[f] in ValueStops
    ensures Parse(buf, slots) == Finished(false, slots)
  {
    var a := Lookup(n, 0);
    NameIsOneToken(buf, 0, e, n, ExpName);
    NameStep(buf, 0, e, 0, slots, n, a);
    EqualStep(buf, e, e + 1, a, slots);
    NameInValueRole(buf, e + 1, f, m);
  }

  /**
   * A value run longer than the token buffer hangs the parse: the copy loop
   * stops advancing when the buffer is full and never reaches the run's end.
   * A '#' after a value does not start a comment, so a trailing remark on a
   * NAME=VALUE line is part of the run.
   */
  lemma LongValueHangs(buf: seq<char>, p: nat, e: nat, cur: nat, slots: seq<ConfigLine>)
    requires p <= e <= |buf| && cur < AttCount && |slots| == AttCount
    requires e - p > MaxTokenLen && buf[p] != ' ' && buf[p] != '='
    requires forall k | p <= k < e :: buf[k] !in ValueStops
    ensures Run(buf, p, ExpValue, cur, slots) == Hangs
  {
    SkipFromAt(buf, p, p, CfgSpace);
    assert RunEnd(buf, p, ValueStops) >= e;
  }

  /**
   * So does a file whose first line is NAME= and such a run, whatever
   * follows it.
   */
  lemma LongValueLineHangs(buf: seq<char>, n: string, e: nat, v: string, slots: seq<ConfigLine>)
    requires |slots| == AttCount && IsName(n)
    requires e == |n| && e + 1 + |v| <= |buf| && buf[0..e] == n && buf[e] == '=' && buf[e + 1..e + 1 + |v|] == v
    requires |v| > MaxTokenLen && v[0] != ' ' && v[0] != '='
    requires forall k | 0 <= k < |v| :: v[k] !in ValueStops
    ensures Parse(buf, slots) == Hangs
  {
    var a := Lookup(n, 0);
    assert Parse(buf, slots) == Run(buf, e + 1, ExpValue, a, slots) by {
      NameIsOneToken(buf, 0, e, n, ExpName);
      NameStep(buf, 0, e, 0, slots, n, a);
      EqualStep(buf, e, e + 1, a, slots);
    }
    assert buf[e + 1] == v[0];
    assert forall k | e + 1 <= k < e + 1 + |v| :: buf[k] !in ValueStops by {
      forall k | e + 1 <= k < e + 1 + |v|
        ensures buf[k] !in ValueStops
      {
        assert buf[k] == v[k - (e + 1)];
      }
    }
    LongValueHangs(buf, e + 1, e + 1 + |v|, a, slots);
  }
}

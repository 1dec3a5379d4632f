/**
 * Cursor movements over a character buffer, the scanning steps of the
 * tokenizer. The buffer is the `bufSize` bytes read from the file; the
 * reader relies on the zero fill after them, so a read at or past the end
 * yields NUL.
 */
module Cursor {

  /** No NUL byte inside the buffer. */
  predicate NoNul(buf: seq<char>)
  {
    forall k | 0 <= k < |buf| :: buf[k] != '\0'
  }

  /** buffer[i], with the zero fill past the end. */
  function At(buf: seq<char>, i: nat): char
  {
    if i < |buf| then buf[i] else '\0'
  }

  /** Advance from i while the character belongs to `skip`: the first position not in it, or the end. */
  function SkipFrom(buf: seq<char>, i: nat, skip: string): (j: nat)
    requires i <= |buf|
    ensures i <= j <= |buf|
    ensures forall k | i <= k < j :: buf[k] in skip
    ensures j == |buf| || buf[j] !in skip
    decreases |buf| - i
  {
    if i < |buf| && buf[i] in skip then SkipFrom(buf, i + 1, skip) else i
  }

  /** Advance from i until a character of `stops`: the first stop position, or the end. */
  function RunEnd(buf: seq<char>, i: nat, stops: string): (j: nat)
    requires i <= |buf|
    ensures i <= j <= |buf|
    ensures forall k | i <= k < j :: buf[k] !in stops
    ensures j == |buf| || buf[j] in stops
    decreases |buf| - i
  {
    if i < |buf| && buf[i] !in stops then RunEnd(buf, i + 1, stops) else i
  }

  /** A skip that starts on a skipped character moves past it to where a skip from the next position ends. */
  lemma SkipFromStep(buf: seq<char>, i: nat, skip: string)
    requires i < |buf| && buf[i] in skip
    ensures SkipFrom(buf, i, skip) == SkipFrom(buf, i + 1, skip)
  {
  }

  /** A position where every character from i on is outside `stops` up to a stop or the end is the run's end. */
  lemma RunEndAt(buf: seq<char>, i: nat, j: nat, stops: string)
    requires i <= j <= |buf|
    requires forall k | i <= k < j :: buf[k] !in stops
    requires j == |buf| || buf[j] in stops
    ensures RunEnd(buf, i, stops) == j
  {
  }

  /** The same for a skip. */
  lemma SkipFromAt(buf: seq<char>, i: nat, j: nat, skip: string)
    requires i <= j <= |buf|
    requires forall k | i <= k < j :: buf[k] in skip
    requires j == |buf| || buf[j] !in skip
    ensures SkipFrom(buf, i, skip) == j
  {
  }
}

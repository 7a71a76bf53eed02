/** The in-memory diagnostics log: a record-count bound and a character bound, both kept
    by evicting the oldest lines one at a time. */
module LogBuffer {
  import opened Text

  const MAX_LOG_RECORDS: nat := 5000
  const MAX_LOG_CHARACTERS: nat := 512 * 1024

  // ---------------------------------------------------------- the bounds

  function Chars(lines: seq<string>): nat {
    if lines == [] then 0 else |lines[0]| + Chars(lines[1..])
  }

  datatype Limits = Limits(records: nat, characters: nat)

  predicate Fits(lines: seq<string>, m: Limits) {
    |lines| <= m.records && Chars(lines) <= m.characters
  }

  /** Drop the oldest line until the rest fits. */
  function Trim(lines: seq<string>, m: Limits): (r: seq<string>)
    ensures Fits(r, m)
  {
    if Fits(lines, m) then lines else Trim(lines[1..], m)
  }

  lemma {:induction false} CharsAppend(lines: seq<string>, more: seq<string>)
    ensures Chars(lines + more) == Chars(lines) + Chars(more)
  {
    if lines == [] {
      assert lines + more == more;
    } else {
      CharsAppend(lines[1..], more);
      assert (lines + more)[1..] == lines[1..] + more;
    }
  }

  lemma CharsSplit(lines: seq<string>, k: nat)
    requires k <= |lines|
    ensures Chars(lines) == Chars(lines[..k]) + Chars(lines[k..])
  {
    CharsAppend(lines[..k], lines[k..]);
    assert lines[..k] + lines[k..] == lines;
  }

  /** What is kept is the longest suffix within both bounds: position k starts a fitting
      suffix exactly when it is not before the kept part. */
  lemma {:induction false} TrimIsLongestSuffix(lines: seq<string>, m: Limits, k: nat)
    requires k <= |lines|
    ensures |Trim(lines, m)| <= |lines| && Trim(lines, m) == lines[|lines| - |Trim(lines, m)|..]
    ensures Fits(lines[k..], m) <==> |lines| - |Trim(lines, m)| <= k
  {
    if Fits(lines, m) {
      CharsSplit(lines, k);
    } else if k == 0 {
      TrimIsLongestSuffix(lines[1..], m, 0);
      assert lines[0..] == lines;
    } else {
      TrimIsLongestSuffix(lines[1..], m, k - 1);
      assert lines[1..][k - 1..] == lines[k..];
    }
  }

  // ------------------------------------------------------------ emitting

  /** An emitted record: the line it formats to, or None when formatting it raises. */
  type Emission = Option<string>

  function Lines(es: seq<Emission>): seq<string> {
    if es == [] then []
    else Lines(es[..|es| - 1]) + if es[|es| - 1].Some? then [es[|es| - 1].value] else []
  }

  /** A failed emission on a full buffer has already made room for the line that never
      came. */
  predicate LostOne(es: seq<Emission>, m: Limits) {
    es != [] && es[|es| - 1].None? && |Trim(Lines(es), m)| == m.records
  }

  /** What the buffer holds after a history of emissions. */
  function Retained(es: seq<Emission>, m: Limits): seq<string>
    requires m.records > 0
  {
    if LostOne(es, m) then Trim(Lines(es), m)[1..] else Trim(Lines(es), m)
  }

  lemma {:induction false} TrimAppend(lines: seq<string>, line: string, m: Limits)
    ensures Trim(lines + [line], m) == Trim(Trim(lines, m) + [line], m)
  {
    if !Fits(lines, m) {
      CharsAppend(lines, [line]);
      assert !Fits(lines + [line], m);
      assert (lines + [line])[1..] == lines[1..] + [line];
      TrimAppend(lines[1..], line, m);
    }
  }

  /** Room for one more line is made before it is appended. */
  function MakeRoom(kept: seq<string>, m: Limits): seq<string>
    requires m.records > 0
  {
    if |kept| == m.records then kept[1..] else kept
  }

  lemma RoomIsTrimmed(kept: seq<string>, line: string, m: Limits)
    requires m.records > 0 && Fits(kept, m)
    ensures Trim(MakeRoom(kept, m) + [line], m) == Trim(kept + [line], m)
  {
    if |kept| == m.records {
      assert (kept + [line])[1..] == kept[1..] + [line];
    }
  }

  /** A line arriving after failed emissions lands in the place they freed. */
  lemma RetainedStep(es: seq<Emission>, e: Emission, m: Limits)
    requires m.records > 0
    ensures Retained(es + [e], m)
         == (var room := MakeRoom(Retained(es, m), m);
             match e case None => room case Some(line) => Trim(room + [line], m))
  {
    var all := Trim(Lines(es), m);
    assert (es + [e])[..|es|] == es;
    if e.Some? {
      assert Lines(es + [e]) == Lines(es) + [e.value];
      TrimAppend(Lines(es), e.value, m);
      RoomIsTrimmed(all, e.value, m);
    } else {
      assert Lines(es + [e]) == Lines(es);
    }
  }

  /** The buffer is the longest fitting suffix of the emitted lines exactly when the last
      emission did not fail to format on a full buffer. */
  lemma RetainedIsLongestSuffixIff(es: seq<Emission>, m: Limits)
    requires m.records > 0
    ensures Retained(es, m) == Trim(Lines(es), m) <==> !LostOne(es, m)
  {
    if LostOne(es, m) {
      assert |Retained(es, m)| == |Trim(Lines(es), m)| - 1;
    }
  }

  /** Without format failures it always is. */
  lemma {:induction false} FormattedHistoryIsKept(lines: seq<string>, m: Limits)
    requires m.records > 0
    ensures Lines(seq(|lines|, i requires 0 <= i < |lines| => Some(lines[i]))) == lines
    ensures Retained(seq(|lines|, i requires 0 <= i < |lines| => Some(lines[i])), m) == Trim(lines, m)
  {
    var es := seq(|lines|, i requires 0 <= i < |lines| => Some(lines[i]));
    if lines != [] {
      var n := |lines| - 1;
      FormattedHistoryIsKept(lines[..n], m);
      assert es[..n] == seq(n, i requires 0 <= i < n => Some(lines[..n][i]));
      assert lines == lines[..n] + [lines[n]];
    }
  }

  /** Two short lines fill a two-line buffer; one failing emission then drops "a". */
  lemma FailingFormatLosesARecord()
    ensures var es := [Some("a"), Some("b"), None];
      var m := Limits(2, 10);
      Retained(es, m) == ["b"] && Trim(Lines(es), m) == ["a", "b"]
  {
    var es: seq<Emission> := [Some("a"), Some("b"), None];
    var m := Limits(2, 10);
    assert es[..2] == [Some("a"), Some("b")] && es[..2][..1] == [Some("a")] && es[..2][..1][..0] == [];
    assert Lines(es[..2][..1]) == ["a"];
    assert Lines(es[..2]) == ["a", "b"];
    assert Lines(es) == ["a", "b"];
    assert ["a", "b"][1..] == ["b"];
    assert Chars(["a", "b"]) == 2;
  }

  // --------------------------------------------------------- the handler

  class LogHandler {
    const limits: Limits
    var records: seq<string>
    var currentChars: int
    ghost var history: seq<Emission>

    /** The records are the ones the history calls for, and the running counter is the
        number of characters they hold. */
    ghost predicate Valid()
      reads this
    {
      && limits.records > 0
      && records == Retained(history, limits)
      && currentChars == Chars(records)
    }

    constructor ()
      ensures Valid() && history == [] && limits == Limits(MAX_LOG_RECORDS, MAX_LOG_CHARACTERS)
    {
      limits := Limits(MAX_LOG_RECORDS, MAX_LOG_CHARACTERS);
      records, currentChars, history := [], 0, [];
    }

    method PopLeft()
      requires records != []
      modifies this`records, this`currentChars
      ensures records == old(records)[1..]
      ensures currentChars == old(currentChars) - |old(records)[0]|
    {
      currentChars := currentChars - |records[0]|;
      records := records[1..];
    }

    method Emit(formatted: Emission)
      requires Valid()
      modifies this
      ensures Valid() && history == old(history) + [formatted]
      ensures records == Trim(Lines(history), limits) <==> !LostOne(history, limits)
    {
      RetainedStep(history, formatted, limits);
      RetainedIsLongestSuffixIff(history + [formatted], limits);
      history := history + [formatted];
      ghost var room := MakeRoom(records, limits);
      if |records| == limits.records {
        PopLeft();
      }
      match formatted {
        case None =>
        case Some(line) =>
          CharsAppend(records, [line]);
          records := records + [line];
          currentChars := currentChars + |line|;
          while currentChars > limits.characters && records != []
            invariant |records| <= limits.records && currentChars == Chars(records)
            invariant Trim(records, limits) == Trim(room + [line], limits)
            invariant history == old(history) + [formatted]
            decreases |records|
          {
            PopLeft();
          }
      }
    }
  }

  // ------------------------------------------------- the bounds, spelled out

  /** All characters of the lines. */
  function Total(lines: seq<string>): nat {
    if lines == [] then 0 else Total(lines[..|lines| - 1]) + |lines[|lines| - 1]|
  }

  lemma {:induction false} CharsAreTotal(lines: seq<string>)
    ensures Chars(lines) == Total(lines)
  {
    if lines != [] {
      var n := |lines| - 1;
      CharsAreTotal(lines[..n]);
      CharsAppend(lines[..n], [lines[n]]);
      assert lines == lines[..n] + [lines[n]] && [lines[n]][1..] == [];
    }
  }

  /** Without format failures a new handler keeps the longest suffix of at most 5000 lines and
      524288 characters: a suffix of the lines is that short exactly when it is no longer than what
      is kept. */
  lemma KeptAreTheLatest(lines: seq<string>, k: nat)
    requires k <= |lines|
    ensures var es := seq(|lines|, i requires 0 <= i < |lines| => Some(lines[i]));
      var kept := Retained(es, Limits(MAX_LOG_RECORDS, MAX_LOG_CHARACTERS));
      && |kept| <= |lines| && kept == lines[|lines| - |kept|..]
      && (|lines| - k <= 5000 && Total(lines[k..]) <= 524288 <==> |lines| - k <= |kept|)
  {
    var m := Limits(MAX_LOG_RECORDS, MAX_LOG_CHARACTERS);
    FormattedHistoryIsKept(lines, m);
    TrimIsLongestSuffix(lines, m, k);
    CharsAreTotal(lines[k..]);
  }
}

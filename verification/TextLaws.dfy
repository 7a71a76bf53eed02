/** What the string helpers compute, said of the texts themselves. */
module TextLaws {
  import opened Text
  import Sorting

  // ------------------------------------------------------------- stripping

  predicate Blank(s: string) { forall i :: 0 <= i < |s| ==> IsSpace(s[i]) }

  lemma {:induction false} StripLeftOf(front: string, s: string)
    requires Blank(front) && (s != "" ==> !IsSpace(s[0]))
    ensures StripLeft(front + s) == s
  {
    if front == "" {
      assert front + s == s;
    } else {
      assert (front + s)[1..] == front[1..] + s;
      StripLeftOf(front[1..], s);
    }
  }

  lemma {:induction false} StripRightOf(s: string, back: string)
    requires Blank(back) && (s != "" ==> !IsSpace(s[|s| - 1]))
    ensures StripRight(s + back) == s
  {
    if back == "" {
      assert s + back == s;
    } else {
      var n := |back| - 1;
      assert (s + back)[..|s + back| - 1] == s + back[..n];
      StripRightOf(s, back[..n]);
    }
  }

  /** Stripping takes the blanks off both ends and nothing else. */
  lemma StripIs(front: string, s: string, back: string)
    requires Blank(front) && Blank(back) && (s != "" ==> !IsSpace(s[0]) && !IsSpace(s[|s| - 1]))
    ensures Strip(front + s + back) == s
  {
    if s == "" {
      assert front + s + back == (front + back) + "";
      StripLeftOf(front + back, "");
    } else {
      assert front + s + back == front + (s + back);
      StripLeftOf(front, s + back);
      StripRightOf(s, back);
    }
  }

  lemma OneMoreBlank(c: char, front: string, s: string)
    requires IsSpace(c) && Blank(front)
    ensures [c] + (front + s) == ([c] + front) + s && Blank([c] + front)
  {
  }

  lemma {:induction false} FrontBlanks(s: string) returns (front: string)
    ensures s == front + StripLeft(s) && Blank(front)
  {
    if s != "" && IsSpace(s[0]) {
      var rest := FrontBlanks(s[1..]);
      OneMoreBlank(s[0], rest, StripLeft(s[1..]));
      front := [s[0]] + rest;
      assert s == [s[0]] + s[1..];
    } else {
      front := "";
    }
  }

  lemma {:induction false} BackBlanks(s: string) returns (back: string)
    ensures s == StripRight(s) + back && Blank(back)
  {
    if s != "" && IsSpace(s[|s| - 1]) {
      var rest := BackBlanks(s[..|s| - 1]);
      back := rest + [s[|s| - 1]];
      assert s == s[..|s| - 1] + [s[|s| - 1]];
    } else {
      back := "";
    }
  }

  /** Every text is of that form. */
  lemma Trimmed(s: string) returns (front: string, back: string)
    ensures s == front + Strip(s) + back && Blank(front) && Blank(back)
  {
    front := FrontBlanks(s);
    back := BackBlanks(StripLeft(s));
    assert s == front + (Strip(s) + back);
  }

  const Alnum: char -> bool := (c: char) => '0' <= c <= '9' || 'A' <= c <= 'Z' || 'a' <= c <= 'z'

  /** Keeping letters and digits filters them out in order. */
  lemma {:induction false} KeepAlnumIs(s: string)
    ensures KeepAlnum(s) == Sorting.WithKey(s, Alnum, true)
  {
    if s != "" {
      var one := Sorting.WithKey([s[0]], Alnum, true);
      KeepAlnumIs(s[1..]);
      assert s == [s[0]] + s[1..];
      Sorting.WithKeyConcat([s[0]], s[1..], Alnum, true);
      Sorting.WithKeyAppend([], s[0], Alnum, true);
      assert [] + [s[0]] == [s[0]];
    }
  }

  // -------------------------------------------------------------- decimals

  function ValueOf(digits: string): int {
    if digits == "" then 0 else 10 * ValueOf(digits[..|digits| - 1]) + (digits[|digits| - 1] as int - '0' as int)
  }

  /** The digits of a number read back as it, without a leading zero. */
  lemma {:induction false} DecimalReadsBack(n: nat)
    ensures ValueOf(Decimal(n)) == n && (n > 0 ==> Decimal(n)[0] != '0') && Decimal(0) == "0"
  {
    if n >= 10 {
      var front, last := Decimal(n / 10), ('0' as int + n % 10) as char;
      DecimalReadsBack(n / 10);
      assert Decimal(n) == front + [last] && (front + [last])[..|front|] == front;
    } else {
      assert Decimal(n)[..0] == "";
    }
  }

  // ---------------------------------------------------------- event names

  /** What separates the words of a name. */
  predicate IsGap(c: char) { c == '_' || IsSpace(c) }

  /** How long the word at the front is. */
  function WordLength(s: string): (n: nat)
    ensures n <= |s| && (forall i :: 0 <= i < n ==> !IsGap(s[i])) && (n < |s| ==> IsGap(s[n]))
  {
    if s == "" || IsGap(s[0]) then 0 else 1 + WordLength(s[1..])
  }

  /** The words of a name, in order. */
  function Words(s: string): (ws: seq<string>)
    ensures forall k :: 0 <= k < |ws| ==> IsWord(ws[k])
    decreases |s|
  {
    if s == "" then []
    else if IsGap(s[0]) then Words(s[1..])
    else var n := WordLength(s); [s[..n]] + Words(s[n..])
  }

  predicate IsWord(w: string) { w != "" && forall i :: 0 <= i < |w| ==> !IsGap(w[i]) }

  function Joined(ws: seq<string>): string {
    if ws == [] then "" else if |ws| == 1 then ws[0] else ws[0] + " " + Joined(ws[1..])
  }

  /** Spaces for every gap, none twice in a row. */
  function Spaced(s: string): string { CollapseSpaces(UnderscoresToSpaces(s)) }

  lemma SpacedGap(s: string)
    requires s != "" && IsGap(s[0])
    ensures Spaced(s) == if |s| > 1 && IsGap(s[1]) then Spaced(s[1..]) else " " + Spaced(s[1..])
  {
    assert UnderscoresToSpaces(s)[1..] == UnderscoresToSpaces(s[1..]);
  }

  lemma SpacedLetter(s: string)
    requires s != "" && !IsGap(s[0])
    ensures Spaced(s) == [s[0]] + Spaced(s[1..])
  {
    assert UnderscoresToSpaces(s)[1..] == UnderscoresToSpaces(s[1..]);
  }

  lemma {:induction false} SpacedWord(s: string, n: nat)
    requires n <= |s| && forall i :: 0 <= i < n ==> !IsGap(s[i])
    ensures Spaced(s) == s[..n] + Spaced(s[n..])
  {
    if n > 0 {
      SpacedLetter(s);
      SpacedWord(s[1..], n - 1);
      assert s[1..][..n - 1] == s[1..n] && s[1..][n - 1..] == s[n..] && s[..n] == [s[0]] + s[1..n];
    }
  }

  /** Spaced out, a name is its words with one space between, and perhaps one at either end. */
  predicate Padded(s: string, front: string, back: string) {
    && Spaced(s) == front + Joined(Words(s)) + back && Blank(front) && Blank(back)
    && (s == "" || !IsGap(s[0]) ==> front == "")
    && (s != "" && IsGap(s[0]) && Words(s) != [] ==> front == " ")
  }

  lemma InFront(a: string, b: string, c: string)
    ensures a + ("" + b + c) == a + b + c
  {
  }

  lemma PaddedGap(s: string, front: string, back: string) returns (more: string)
    requires s != "" && IsGap(s[0]) && Padded(s[1..], front, back)
    ensures Padded(s, more, back)
  {
    SpacedGap(s);
    if |s| == 1 || !IsGap(s[1]) {
      more := " ";
      assert front == "";
      InFront(" ", Joined(Words(s)), back);
    } else {
      more := front;
    }
  }

  lemma PaddedWord(s: string, rest: string, w: string, f: string, b: string) returns (back: string)
    requires IsWord(w) && s == w + rest && Spaced(s) == w + Spaced(rest) && Words(s) == [w] + Words(rest)
    requires Padded(rest, f, b) && (rest != "" ==> IsGap(rest[0]))
    ensures Padded(s, "", back)
  {
    JoinedMore(w, Words(rest));
    if Words(rest) == [] {
      back := f + b;
      assert w + (f + "" + b) == "" + w + (f + b);
    } else {
      back := b;
      assert w + (" " + Joined(Words(rest)) + b) == "" + (w + " " + Joined(Words(rest))) + b;
    }
  }

  lemma {:induction false} SpacedIs(s: string) returns (front: string, back: string)
    ensures Padded(s, front, back)
    decreases |s|
  {
    if s == "" {
      front, back := "", "";
    } else if IsGap(s[0]) {
      var f;
      f, back := SpacedIs(s[1..]);
      front := PaddedGap(s, f, back);
    } else {
      var n := WordLength(s);
      var w, rest := s[..n], s[n..];
      SpacedWord(s, n);
      var f, b := SpacedIs(rest);
      assert s == w + rest && Words(s) == [w] + Words(rest);
      front := "";
      back := PaddedWord(s, rest, w, f, b);
    }
  }

  lemma JoinedMore(w: string, ws: seq<string>)
    ensures Joined([w] + ws) == if ws == [] then w else w + " " + Joined(ws)
  {
    assert ([w] + ws)[1..] == ws;
  }

  lemma {:induction false} JoinedIsTight(ws: seq<string>)
    requires forall k :: 0 <= k < |ws| ==> IsWord(ws[k])
    ensures Joined(ws) != "" ==> !IsGap(Joined(ws)[0]) && !IsGap(Joined(ws)[|Joined(ws)| - 1])
    ensures ws != [] ==> Joined(ws) != ""
  {
    if |ws| > 1 { JoinedIsTight(ws[1..]); }
  }

  /** The key under which event names clash is their words in lower case. */
  lemma NameKeyIs(s: string)
    ensures CommandNameKey(s) == Lower(Joined(Words(s)))
  {
    var front, back := SpacedIs(s);
    JoinedIsTight(Words(s));
    StripIs(front, Joined(Words(s)), back);
  }

  lemma {:induction false} WordLengthOf(w: string, rest: string)
    requires IsWord(w) && (rest != "" ==> IsGap(rest[0]))
    ensures WordLength(w + rest) == |w|
  {
    assert (w + rest)[1..] == w[1..] + rest;
    if |w| > 1 {
      WordLengthOf(w[1..], rest);
    } else {
      assert w[1..] + rest == rest;
    }
  }

  lemma WordsMore(w: string, rest: string)
    requires IsWord(w) && (rest != "" ==> IsGap(rest[0]))
    ensures Words(w + rest) == [w] + Words(rest)
  {
    WordLengthOf(w, rest);
    assert (w + rest)[..|w|] == w && (w + rest)[|w|..] == rest;
  }

  lemma WordsAfterSpace(rest: string)
    ensures Words(" " + rest) == Words(rest)
  {
    assert (" " + rest)[1..] == rest;
  }

  lemma WordsOfMore(w: string, rest: seq<string>)
    requires IsWord(w) && Words(Joined(rest)) == rest
    ensures Words(Joined([w] + rest)) == [w] + rest
  {
    JoinedMore(w, rest);
    if rest == [] {
      WordsMore(w, "");
      assert w + "" == w;
    } else {
      WordsAfterSpace(Joined(rest));
      WordsMore(w, " " + Joined(rest));
      assert w + " " + Joined(rest) == w + (" " + Joined(rest));
    }
  }

  lemma {:induction false} WordsOfJoined(ws: seq<string>)
    requires forall k :: 0 <= k < |ws| ==> IsWord(ws[k])
    ensures Words(Joined(ws)) == ws
  {
    if ws != [] {
      WordsOfJoined(ws[1..]);
      WordsOfMore(ws[0], ws[1..]);
      assert ws == [ws[0]] + ws[1..];
    }
  }

  function LowerAll(ws: seq<string>): (r: seq<string>)
    ensures |r| == |ws| && forall k :: 0 <= k < |ws| ==> r[k] == Lower(ws[k])
  {
    seq(|ws|, k requires 0 <= k < |ws| => Lower(ws[k]))
  }

  lemma LowerConcat(a: string, b: string)
    ensures Lower(a + b) == Lower(a) + Lower(b)
  {
  }

  lemma {:induction false} LowerJoined(ws: seq<string>)
    ensures Lower(Joined(ws)) == Joined(LowerAll(ws))
  {
    if |ws| > 1 {
      LowerJoined(ws[1..]);
      assert LowerAll(ws)[1..] == LowerAll(ws[1..]);
      LowerConcat(ws[0] + " ", Joined(ws[1..]));
      LowerConcat(ws[0], " ");
      assert Lower(" ") == " ";
    }
  }

  lemma LowerKeepsWords(ws: seq<string>)
    requires forall k :: 0 <= k < |ws| ==> IsWord(ws[k])
    ensures forall k :: 0 <= k < |ws| ==> IsWord(LowerAll(ws)[k])
  {
  }

  /** Two event names clash if and only if they have the same words but for case. */
  lemma NamesClashIff(a: string, b: string)
    ensures CommandNameKey(a) == CommandNameKey(b) <==> LowerAll(Words(a)) == LowerAll(Words(b))
  {
    NameKeyIs(a);
    NameKeyIs(b);
    LowerJoined(Words(a));
    LowerJoined(Words(b));
    LowerKeepsWords(Words(a));
    LowerKeepsWords(Words(b));
    WordsOfJoined(LowerAll(Words(a)));
    WordsOfJoined(LowerAll(Words(b)));
  }

  // ------------------------------------------------------------ characters

  const CAPITALS := "ABCDEFGHIJKLMNOPQRSTUVWXYZ"
  const SMALL := "abcdefghijklmnopqrstuvwxyz"

  /** Lower case takes each capital to the small letter at its place and leaves the rest. */
  lemma LowerIs(c: char, i: nat)
    ensures i < 26 && c == CAPITALS[i] ==> LowerChar(c) == SMALL[i]
    ensures c !in CAPITALS ==> LowerChar(c) == c
  {
    if IsUpper(c) {
      var k := c as int - 'A' as int;
      assert CAPITALS[k] == c;
    }
  }

  /** Blanks are the tab and line controls, the four separators and the space. */
  lemma BlanksAre(c: char)
    ensures IsSpace(c) <==> c as int in {9, 10, 11, 12, 13, 28, 29, 30, 31, 32}
  {
  }

  // ------------------------------------------------------------- the order

  /** The two agree before position n, where the first ends or has the smaller character. */
  predicate DiffersAt(a: string, b: string, n: nat) {
    && n <= |a| && n < |b| && a[..n] == b[..n]
    && (n == |a| || a[n] < b[n])
  }

  lemma DiffersOn(c: char, a: string, b: string, n: nat)
    ensures DiffersAt([c] + a, [c] + b, n + 1) <==> DiffersAt(a, b, n)
  {
    if n <= |a| && n < |b| {
      assert ([c] + a)[..n + 1] == [c] + a[..n] && ([c] + b)[..n + 1] == [c] + b[..n];
      assert ([c] + a)[..n + 1][1..] == a[..n] && ([c] + b)[..n + 1][1..] == b[..n];
    }
  }

  /** Where b is blank or its first character the smaller one, no place makes a the lesser. */
  lemma NoDifferenceAt(a: string, b: string, n: nat)
    requires b == "" || (a != "" && b[0] < a[0])
    ensures !DiffersAt(a, b, n)
  {
    if b != "" && n > 0 && n <= |a| && n <= |b| {
      assert a[..n][0] == a[0] && b[..n][0] == b[0];
    }
  }

  /** Texts are ordered by their first difference. */
  lemma {:induction false} LessIff(a: string, b: string)
    ensures Sorting.Less(a, b) <==> exists n: nat :: DiffersAt(a, b, n)
  {
    if a != "" && b != "" && a[0] == b[0] {
      LessIff(a[1..], b[1..]);
      assert a == [a[0]] + a[1..] && b == [b[0]] + b[1..];
      if n: nat :| DiffersAt(a[1..], b[1..], n) { DiffersOn(a[0], a[1..], b[1..], n); }
      if n: nat :| DiffersAt(a, b, n) {
        assert n > 0;
        DiffersOn(a[0], a[1..], b[1..], n - 1);
      }
    } else if b != "" && (a == "" || a[0] < b[0]) {
      assert DiffersAt(a, b, 0);
    } else {
      forall n: nat {
        NoDifferenceAt(a, b, n);
      }
    }
  }

  /** The two tuples agree before component n, where the first ends or has the smaller text. */
  predicate TuplesDifferAt(a: seq<string>, b: seq<string>, n: nat) {
    && n <= |a| && n < |b| && a[..n] == b[..n]
    && (n == |a| || Sorting.Less(a[n], b[n]))
  }

  lemma TuplesDifferOn(x: string, a: seq<string>, b: seq<string>, n: nat)
    ensures TuplesDifferAt([x] + a, [x] + b, n + 1) <==> TuplesDifferAt(a, b, n)
  {
    if n <= |a| && n < |b| {
      assert ([x] + a)[..n + 1] == [x] + a[..n] && ([x] + b)[..n + 1] == [x] + b[..n];
      assert ([x] + a)[..n + 1][1..] == a[..n] && ([x] + b)[..n + 1][1..] == b[..n];
    }
  }

  lemma NoTuplesDifferAt(a: seq<string>, b: seq<string>, n: nat)
    requires b == [] || (a != [] && a[0] != b[0] && !Sorting.Less(a[0], b[0]))
    ensures !TuplesDifferAt(a, b, n)
  {
    if b != [] && n > 0 && n <= |a| && n <= |b| {
      assert a[..n][0] == a[0] && b[..n][0] == b[0];
    }
  }

  /** Tuples are ordered by their first different component. */
  lemma {:induction false} TupleLessIff(a: seq<string>, b: seq<string>)
    ensures Sorting.TupleLess(a, b) <==> exists n: nat :: TuplesDifferAt(a, b, n)
  {
    if a != [] && b != [] && a[0] == b[0] {
      TupleLessIff(a[1..], b[1..]);
      assert a == [a[0]] + a[1..] && b == [b[0]] + b[1..];
      if n: nat :| TuplesDifferAt(a[1..], b[1..], n) { TuplesDifferOn(a[0], a[1..], b[1..], n); }
      if n: nat :| TuplesDifferAt(a, b, n) {
        Sorting.LessIsTotal(a[0], a[0]);
        assert n > 0;
        TuplesDifferOn(a[0], a[1..], b[1..], n - 1);
      }
    } else if b != [] && (a == [] || Sorting.Less(a[0], b[0])) {
      assert TuplesDifferAt(a, b, 0);
    } else {
      forall n: nat {
        NoTuplesDifferAt(a, b, n);
      }
    }
  }
}

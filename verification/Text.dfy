/** String helpers used by the configuration store: ASCII counterparts of the
    Python string methods the store calls.  Names are sequences of ASCII characters. */
module Text {

  datatype Option<+T> = None | Some(value: T)

  /** Characters removed by an argument-less `str.strip()`. */
  predicate IsSpace(c: char) {
    9 <= c as int <= 13 || 28 <= c as int <= 32
  }

  predicate IsDigit(c: char) { '0' <= c <= '9' }

  predicate IsUpper(c: char) { 'A' <= c <= 'Z' }

  predicate IsAlnum(c: char) { IsDigit(c) || IsUpper(c) || 'a' <= c <= 'z' }

  function StripLeft(s: string): (r: string)
    ensures |r| <= |s|
    ensures r != "" ==> !IsSpace(r[0])
  {
    if s != "" && IsSpace(s[0]) then StripLeft(s[1..]) else s
  }

  function StripRight(s: string): (r: string)
    ensures r <= s
    ensures r != "" ==> !IsSpace(r[|r| - 1])
  {
    if s != "" && IsSpace(s[|s| - 1]) then StripRight(s[..|s| - 1]) else s
  }

  /** `str.strip()` */
  function Strip(s: string): (r: string)
    ensures r != "" ==> !IsSpace(r[0]) && !IsSpace(r[|r| - 1])
  {
    StripRight(StripLeft(s))
  }

  /** A string with no blank at either end is left alone. */
  lemma StripTrimmed(s: string)
    requires s != "" ==> !IsSpace(s[0]) && !IsSpace(s[|s| - 1])
    ensures Strip(s) == s
  {
  }

  lemma StripIdempotent(s: string)
    ensures Strip(Strip(s)) == Strip(s)
  {
    StripTrimmed(Strip(s));
  }

  function LowerChar(c: char): char {
    if IsUpper(c) then (c as int + 32) as char else c
  }

  /** `str.lower()` */
  function Lower(s: string): (r: string)
    ensures |r| == |s|
    ensures forall i :: 0 <= i < |s| ==> r[i] == LowerChar(s[i])
  {
    seq(|s|, i requires 0 <= i < |s| => LowerChar(s[i]))
  }

  /** `"".join(ch for ch in s if ch.isalnum())` */
  function KeepAlnum(s: string): (r: string)
    ensures |r| <= |s|
    ensures forall i :: 0 <= i < |r| ==> IsAlnum(r[i])
    ensures (forall i :: 0 <= i < |s| ==> IsAlnum(s[i])) ==> r == s
  {
    if s == "" then ""
    else if IsAlnum(s[0]) then [s[0]] + KeepAlnum(s[1..]) else KeepAlnum(s[1..])
  }

  /** Lower-casing first keeps the filtered text free of capitals. */
  lemma KeepAlnumOfLower(s: string)
    requires forall i :: 0 <= i < |s| ==> !IsUpper(s[i])
    ensures forall i :: 0 <= i < |KeepAlnum(s)| ==> !IsUpper(KeepAlnum(s)[i])
  {
  }

  /** Lower-case letters and digits only. */
  predicate IsPlain(s: string) {
    forall i :: 0 <= i < |s| ==> IsAlnum(s[i]) && !IsUpper(s[i])
  }

  lemma PlainIsFixed(s: string)
    requires IsPlain(s)
    ensures Strip(s) == s && Lower(s) == s && KeepAlnum(s) == s
  {
    StripTrimmed(s);
    assert Lower(s) == s;
  }

  /** Decimal digits of a natural number, as `str(n)` prints them. */
  function Decimal(n: nat): (r: string)
    ensures r != "" && forall i :: 0 <= i < |r| ==> IsDigit(r[i])
  {
    if n < 10 then [('0' as int + n) as char]
    else Decimal(n / 10) + [('0' as int + n % 10) as char]
  }

  /** Collapse every run of blanks to one space: `re.sub(r"\s+", " ", s)`. */
  function CollapseSpaces(s: string): string {
    if s == "" then ""
    else if !IsSpace(s[0]) then [s[0]] + CollapseSpaces(s[1..])
    else if |s| > 1 && IsSpace(s[1]) then CollapseSpaces(s[1..])
    else " " + CollapseSpaces(s[1..])
  }

  function UnderscoresToSpaces(s: string): (r: string)
    ensures |r| == |s|
  {
    seq(|s|, i requires 0 <= i < |s| => if s[i] == '_' then ' ' else s[i])
  }

  /** `normalize_command_name`: the equivalence under which two event names clash. */
  function CommandNameKey(s: string): string {
    Lower(Strip(CollapseSpaces(UnderscoresToSpaces(s))))
  }

  /** One element more of a sequence built up in order. */
  lemma TakeOne<T>(xs: seq<T>, i: nat)
    requires i < |xs|
    ensures xs[..i + 1] == xs[..i] + [xs[i]]
  {
  }
}

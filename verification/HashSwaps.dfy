/** Which neighbouring slots may change places without the commands hash seeing it. */
module HashSwaps {
  import opened Text
  import opened Slots
  import opened HashLaws
  import opened HashContent
  import Sorting

  // ------------------------------------------------------ joined with commas

  /** Joined texts come apart again: none of them is blank or holds a comma. */
  predicate Joinable(texts: seq<string>) {
    forall i :: 0 <= i < |texts| ==> texts[i] != "" && ',' !in texts[i]
  }

  lemma JoinedHead(texts: seq<string>)
    requires Joinable(texts) && texts != []
    ensures var joined := JoinCommas(texts);
      && |texts[0]| <= |joined| && joined[..|texts[0]|] == texts[0] && joined != ""
      && (|texts| > 1 ==>
            && |joined| > |texts[0]| && joined[|texts[0]|] == ','
            && joined[|texts[0]| + 1..] == JoinCommas(texts[1..]))
      && (|texts| == 1 ==> joined == texts[0])
  {
    assert texts[0] != "";
    if |texts| > 1 { assert JoinCommas(texts) == texts[0] + "," + JoinCommas(texts[1..]); }
  }

  /** The first text ends where the first comma stands. */
  lemma HeadsAgree(xs: seq<string>, ys: seq<string>)
    requires Joinable(xs) && Joinable(ys) && xs != [] && ys != [] && JoinCommas(xs) == JoinCommas(ys)
    ensures |xs[0]| <= |ys[0]|
  {
    JoinedHead(xs);
    JoinedHead(ys);
    forall k | 0 <= k < |xs[0]| ensures JoinCommas(xs)[k] != ',' {
      assert JoinCommas(xs)[..|xs[0]|][k] == xs[0][k];
    }
  }

  lemma {:induction false} JoinIsInjective(xs: seq<string>, ys: seq<string>)
    requires Joinable(xs) && Joinable(ys) && JoinCommas(xs) == JoinCommas(ys)
    ensures xs == ys
  {
    if xs == [] {
      if ys != [] { JoinedHead(ys); }
    } else {
      JoinedHead(xs);
      assert ys != [];
      JoinedHead(ys);
      HeadsAgree(xs, ys);
      HeadsAgree(ys, xs);
      if |xs| > 1 { JoinIsInjective(xs[1..], ys[1..]); }
      assert xs == [xs[0]] + xs[1..] && ys == [ys[0]] + ys[1..];
    }
  }

  // --------------------------------------------------------- the sort key

  /** A slot's content, its name in lower case. */
  function Folded(s: Slot): Content { ContentOf(s).(name := Lower(Strip(s.name))) }

  predicate NoCommas(s: Slot) {
    forall k :: 0 <= k < |s.activities| ==> ',' !in Strip(s.activities[k])
  }

  function Acts(s: Slot): seq<string> {
    Sorting.SortBy(NonEmpty(StripAll(s.activities)), AsIs, Sorting.ByText)
  }

  lemma ActsAlikeIff(a: Slot, b: Slot)
    ensures Acts(a) == Acts(b) <==> Listed(a.activities) == Listed(b.activities)
  {
    ListedIs(a.activities);
    ListedIs(b.activities);
    SortedTextsIff(NonEmpty(StripAll(a.activities)), NonEmpty(StripAll(b.activities)), AsIs);
  }

  lemma {:induction false} KeptTexts(texts: seq<string>)
    ensures forall t :: t in NonEmpty(texts) ==> t in texts && t != ""
  {
    if texts != [] { KeptTexts(texts[1..]); }
  }

  lemma ActsAreJoinable(s: Slot)
    requires NoCommas(s)
    ensures Joinable(Acts(s))
  {
    var texts := NonEmpty(StripAll(s.activities));
    KeptTexts(StripAll(s.activities));
    Sorting.SortKeeps(texts, AsIs, Sorting.ByText);
    forall i | 0 <= i < |Acts(s)| ensures Acts(s)[i] != "" && ',' !in Acts(s)[i] {
      assert Acts(s)[i] in multiset(Acts(s));
      assert Acts(s)[i] in texts;
    }
  }

  lemma KeyOf(s: Slot)
    requires IsNormal(s, true)
    ensures RowKey(StoredRow(s))
         == [Lower(Strip(s.name)), Strip(s.hardButton), Flag(s.longPress && Strip(s.hardButton) != ""),
             Flag(s.favorite), Strip(s.inputActivity), JoinCommas(Acts(s))]
  {
    StoredRowIs(s);
  }

  lemma SixAlikeIff(a: seq<string>, b: seq<string>)
    requires |a| == |b| == 6
    ensures a == b <==> a[0] == b[0] && a[1] == b[1] && a[2] == b[2] && a[3] == b[3] && a[4] == b[4] && a[5] == b[5]
  {
  }

  lemma FlagsAlikeIff(p: bool, q: bool)
    ensures Flag(p) == Flag(q) <==> p == q
  {
    assert "1"[0] != "0"[0];
  }

  lemma KeysAlikeIff(a: Slot, b: Slot)
    requires IsNormal(a, true) && IsNormal(b, true)
    ensures !ToldApart(a, b) <==>
      && Folded(a).(activities := multiset{}) == Folded(b).(activities := multiset{})
      && JoinCommas(Acts(a)) == JoinCommas(Acts(b))
  {
    KeyOf(a);
    KeyOf(b);
    SixAlikeIff(RowKey(StoredRow(a)), RowKey(StoredRow(b)));
    FlagsAlikeIff(a.favorite, b.favorite);
    FlagsAlikeIff(a.longPress && Strip(a.hardButton) != "", b.longPress && Strip(b.hardButton) != "");
  }

  /** Two slots are told apart by the sort key if their contents differ in more than the case of
      the name, and only then; activities told apart by commas alone may be missed. */
  lemma ToldApartIff(a: Slot, b: Slot)
    requires IsNormal(a, true) && IsNormal(b, true)
    ensures ToldApart(a, b) ==> Folded(a) != Folded(b)
    ensures Folded(a).(activities := multiset{}) != Folded(b).(activities := multiset{}) ==> ToldApart(a, b)
    ensures NoCommas(a) && NoCommas(b) && Folded(a) != Folded(b) ==> ToldApart(a, b)
  {
    KeysAlikeIff(a, b);
    ActsAlikeIff(a, b);
    if NoCommas(a) && NoCommas(b) && JoinCommas(Acts(a)) == JoinCommas(Acts(b)) {
      ActsAreJoinable(a);
      ActsAreJoinable(b);
      JoinIsInjective(Acts(a), Acts(b));
    }
  }

  // -------------------------------------------------------------- the swap

  lemma PairWithKey<T, K>(x: T, y: T, key: T -> K)
    requires key(x) == key(y)
    ensures Sorting.WithKey([x, y], key, key(x)) == [x, y]
  {
    Sorting.WithKeyOfAll([x, y], key, key(x));
  }

  lemma Uncover<T>(front: seq<T>, x: seq<T>, y: seq<T>, back: seq<T>)
    requires |x| == |y| && front + (x + back) == front + (y + back)
    ensures x == y
  {
    assert (front + (x + back))[|front|..][..|x|] == x;
    assert (front + (y + back))[|front|..][..|y|] == y;
  }

  /** Different neighbours of one key may not change places. */
  lemma SwapShows<T, K(!new)>(xs: seq<T>, i: nat, key: T -> K)
    requires i + 1 < |xs| && key(xs[i]) == key(xs[i + 1]) && Sorting.SameByKey(Swapped(xs, i), xs, key)
    ensures xs[i] == xs[i + 1]
  {
    var x, y, front, back := xs[i], xs[i + 1], xs[..i], xs[i + 2..];
    var k := key(x);
    assert xs == front + ([x, y] + back);
    assert Swapped(xs, i) == front + ([y, x] + back);
    assert Sorting.WithKey(Swapped(xs, i), key, k) == Sorting.WithKey(xs, key, k);
    Sorting.WithKeyConcat(front, [x, y] + back, key, k);
    Sorting.WithKeyConcat(front, [y, x] + back, key, k);
    Sorting.WithKeyConcat([x, y], back, key, k);
    Sorting.WithKeyConcat([y, x], back, key, k);
    PairWithKey(x, y, key);
    PairWithKey(y, x, key);
    Uncover(Sorting.WithKey(front, key, k), [y, x], [x, y], Sorting.WithKey(back, key, k));
    assert [y, x][0] == [x, y][0];
  }

  lemma SwapIff<T, K(!new)>(xs: seq<T>, i: nat, key: T -> K)
    requires i + 1 < |xs|
    ensures Sorting.SameByKey(Swapped(xs, i), xs, key) <==> xs[i] == xs[i + 1] || key(xs[i]) != key(xs[i + 1])
  {
    if key(xs[i]) != key(xs[i + 1]) {
      SwapKeepsKeys(xs, i, key);
    } else if xs[i] == xs[i + 1] {
      assert Swapped(xs, i) == xs;
    } else if Sorting.SameByKey(Swapped(xs, i), xs, key) {
      SwapShows(xs, i, key);
    }
  }

  lemma SwapIsUnseenByKeyIff(slots: seq<Slot>, i: nat, rest: Rest)
    requires i + 1 < |slots|
    ensures HashAlike(Swapped(slots, i), slots, rest) <==>
      StoredRow(slots[i]) == StoredRow(slots[i + 1]) || ToldApart(slots[i], slots[i + 1])
  {
    HashAlikeIff(Swapped(slots, i), slots, rest);
    SwappedRows(slots, i);
    SwapIff(StoredRows(slots), i, RowKey);
  }

  /** Two neighbouring slots change places unseen, under every digest, only if they have the same
      content or differ in more than the case of their names; and whenever they do, unless commas
      alone tell their activities apart. */
  lemma SwapIsUnseenIff(slots: seq<Slot>, i: nat, rest: Rest)
    requires i + 1 < |slots| && AllNormal(slots, true)
    ensures HashAlike(Swapped(slots, i), slots, rest) ==>
      ContentOf(slots[i]) == ContentOf(slots[i + 1]) || Folded(slots[i]) != Folded(slots[i + 1])
    ensures ContentOf(slots[i]) == ContentOf(slots[i + 1]) ==> HashAlike(Swapped(slots, i), slots, rest)
    ensures NoCommas(slots[i]) && NoCommas(slots[i + 1]) && Folded(slots[i]) != Folded(slots[i + 1]) ==>
      HashAlike(Swapped(slots, i), slots, rest)
  {
    SwapIsUnseenByKeyIff(slots, i, rest);
    RowsAlikeIff(slots[i], slots[i + 1]);
    ToldApartIff(slots[i], slots[i + 1]);
  }
}

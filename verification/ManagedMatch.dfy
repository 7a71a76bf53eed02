/** Which device of the hub a deploy replaces: the criteria tried in turn, and what they
    amount to. */
module ManagedMatch {
  import opened Text
  import opened Records
  import opened Ownership

  /** What the record knows of its deployment. */
  datatype Claim = Claim(key: string, deviceId: Option<int>, deployedHash: string, commandsHash: string)

  datatype Criterion = IdIs(id: int) | HashIs(hash: string) | KeyIs(key: string)

  predicate Fits(m: Managed, c: Criterion) {
    match c
    case IdIs(id) => m.id == id
    case HashIs(h) => m.hash == h
    case KeyIs(k) => m.key == Some(k)
  }

  function Matching(managed: seq<Managed>, c: Criterion): (r: seq<Managed>)
    ensures forall m :: m in r <==> m in managed && Fits(m, c)
  {
    if managed == [] then []
    else
      assert managed == [managed[0]] + managed[1..];
      (if Fits(managed[0], c) then [managed[0]] else []) + Matching(managed[1..], c)
  }

  /** A criterion that fits several devices is ambiguous and names none of them. */
  function Verdict(matches: seq<Managed>): (seq<Managed>, bool) {
    if |matches| == 1 then (matches, false) else ([], |matches| > 1)
  }

  function ClaimKey(key: string): string {
    var k := KeepAlnum(Lower(if key == "" then DEFAULT_WIFI_DEVICE_KEY else key));
    if k == "" then DEFAULT_WIFI_DEVICE_KEY else k
  }

  /** The criteria tried in turn; the first that fits any device decides. */
  function Criteria(c: Claim): seq<Criterion> {
    (if Strip(c.deployedHash) == "" then [] else [HashIs(Strip(c.deployedHash))])
    + (if Strip(c.commandsHash) == "" then [] else [HashIs(Strip(c.commandsHash))])
    + [KeyIs(ClaimKey(c.key))]
  }

  function Decide(managed: seq<Managed>, criteria: seq<Criterion>, storedCount: Option<nat>): (seq<Managed>, bool) {
    if criteria == [] then
      (if |managed| == 1 && (storedCount.None? || storedCount.value <= 1) then managed else [], false)
    else if Matching(managed, criteria[0]) != [] then Verdict(Matching(managed, criteria[0]))
    else Decide(managed, criteria[1..], storedCount)
  }

  /** `_match_managed_wifi_devices`: a known device id alone decides. */
  function MatchManaged(managed: seq<Managed>, c: Claim, storedCount: Option<nat>): (seq<Managed>, bool) {
    if c.deviceId.Some? then
      var matches := Matching(managed, IdIs(c.deviceId.value));
      (matches, |matches| > 1)
    else Decide(managed, Criteria(c), storedCount)
  }

  lemma MemberOrEmpty<T>(s: seq<T>)
    ensures s == [] || exists x :: x in s
  {
    if s != [] { assert s[0] in s; }
  }

  lemma {:induction false} OneDevicePerId(managed: seq<Managed>, id: int)
    requires DistinctIds(managed)
    ensures |Matching(managed, IdIs(id))| <= 1
  {
    if managed != [] {
      OneDevicePerId(managed[1..], id);
      if managed[0].id == id {
        forall m | m in managed[1..] ensures m.id != id {
          var j :| 0 <= j < |managed[1..]| && managed[1..][j] == m;
          assert managed[j + 1] == m;
        }
        MemberOrEmpty(Matching(managed[1..], IdIs(id)));
      }
    }
  }

  lemma {:induction false} DecideNamesAtMostOne(managed: seq<Managed>, criteria: seq<Criterion>,
      storedCount: Option<nat>)
    ensures var (matches, ambiguous) := Decide(managed, criteria, storedCount);
      && |matches| <= 1 && (ambiguous ==> matches == [])
      && forall m :: m in matches ==> m in managed
    decreases criteria
  {
    if criteria != [] {
      DecideNamesAtMostOne(managed, criteria[1..], storedCount);
    }
  }

  /** A catalogue with one row per id never offers more than one device for deletion, a
      known device id is the only one ever offered, and an ambiguous match offers none. */
  lemma AtMostOneIsReplaced(managed: seq<Managed>, c: Claim, storedCount: Option<nat>)
    requires DistinctIds(managed)
    ensures var (matches, ambiguous) := MatchManaged(managed, c, storedCount);
      && |matches| <= 1 && (ambiguous ==> matches == [])
      && (forall m :: m in matches ==> m in managed)
      && (c.deviceId.Some? ==> forall m :: m in matches <==> m in managed && m.id == c.deviceId.value)
  {
    if c.deviceId.Some? {
      OneDevicePerId(managed, c.deviceId.value);
    } else {
      DecideNamesAtMostOne(managed, Criteria(c), storedCount);
    }
  }

  // ------------------------------------- what a claim without an id names

  predicate CarriesHash(m: Managed, hash: string) { Strip(hash) != "" && m.hash == Strip(hash) }

  /** A claim's key is read like a record's, and stands for the default record if it is blank. */
  predicate CarriesKey(m: Managed, key: string) {
    var k := KeepAlnum(Lower(key));
    m.key == Some(if k == "" then "default" else k)
  }

  predicate NoneFits(managed: seq<Managed>, fits: Managed -> bool) {
    forall m :: m in managed ==> !fits(m)
  }

  /** m and no other device. */
  predicate Only(managed: seq<Managed>, fits: Managed -> bool, m: Managed) {
    m in managed && fits(m) && forall x :: x in managed && fits(x) ==> x == m
  }

  predicate Several(managed: seq<Managed>, fits: Managed -> bool) {
    exists x, y :: x in managed && y in managed && x != y && fits(x) && fits(y)
  }

  /** The only device left to choose, with no other record it might belong to. */
  predicate OnlyPair(managed: seq<Managed>, storedCount: Option<nat>, m: Managed) {
    managed == [m] && (storedCount.None? || storedCount.value <= 1)
  }

  /** Device m is the one the claim names: by the first of deployed hash, commands hash and key
      that any device carries, or as the only pair when none carries any of them. */
  predicate Names(managed: seq<Managed>, c: Claim, storedCount: Option<nat>, m: Managed) {
    var deployed, current, keyed := ByHash(c.deployedHash), ByHash(c.commandsHash), ByKey(c.key);
    || Only(managed, deployed, m)
    || (NoneFits(managed, deployed) && Only(managed, current, m))
    || (NoneFits(managed, deployed) && NoneFits(managed, current) && Only(managed, keyed, m))
    || (NoneFits(managed, deployed) && NoneFits(managed, current) && NoneFits(managed, keyed)
        && OnlyPair(managed, storedCount, m))
  }

  /** The first of the three that any device carries, several do. */
  predicate Disputed(managed: seq<Managed>, c: Claim) {
    var deployed, current, keyed := ByHash(c.deployedHash), ByHash(c.commandsHash), ByKey(c.key);
    || Several(managed, deployed)
    || (NoneFits(managed, deployed) && Several(managed, current))
    || (NoneFits(managed, deployed) && NoneFits(managed, current) && Several(managed, keyed))
  }

  function ByHash(hash: string): Managed -> bool { (m: Managed) => CarriesHash(m, hash) }
  function ByKey(key: string): Managed -> bool { (m: Managed) => CarriesKey(m, key) }

  lemma {:induction false} MatchingIsDistinct(managed: seq<Managed>, c: Criterion)
    requires DistinctIds(managed)
    ensures DistinctIds(Matching(managed, c))
  {
    if managed != [] {
      var rest := Matching(managed[1..], c);
      MatchingIsDistinct(managed[1..], c);
      forall j | 0 <= j < |rest| ensures rest[j].id != managed[0].id {
        assert rest[j] in managed[1..];
        var i :| 0 <= i < |managed| - 1 && managed[1..][i] == rest[j];
      }
    }
  }

  /** What a stage finds, in terms of what it looks for. */
  lemma VerdictIs(managed: seq<Managed>, c: Criterion, fits: Managed -> bool)
    requires DistinctIds(managed) && forall m :: Fits(m, c) <==> fits(m)
    ensures Matching(managed, c) == [] <==> NoneFits(managed, fits)
    ensures forall m :: Verdict(Matching(managed, c)).0 == [m] <==> Only(managed, fits, m)
    ensures Verdict(Matching(managed, c)).1 <==> Several(managed, fits)
  {
    var found := Matching(managed, c);
    MatchingIsDistinct(managed, c);
    MemberOrEmpty(found);
    if |found| > 1 { assert found[0] in found && found[1] in found && found[0] != found[1]; }
    if |found| == 1 { assert found[0] in found; }
    forall m | Only(managed, fits, m) ensures found == [m] {
      assert m in found;
    }
  }

  /** A stage looks for these devices; one with a blank criterion is left out. */
  ghost predicate Asks(managed: seq<Managed>, stage: seq<Criterion>, fits: Managed -> bool) {
    (stage == [] && NoneFits(managed, fits)) || (|stage| == 1 && forall m :: Fits(m, stage[0]) <==> fits(m))
  }

  /** A stage whose criterion is blank, or fits nothing, leaves the rest to decide. */
  lemma StageIs(managed: seq<Managed>, stage: seq<Criterion>, rest: seq<Criterion>, n: Option<nat>,
      fits: Managed -> bool)
    requires DistinctIds(managed) && Asks(managed, stage, fits)
    ensures NoneFits(managed, fits) ==> Decide(managed, stage + rest, n) == Decide(managed, rest, n)
    ensures !NoneFits(managed, fits) ==>
      && (forall m :: Decide(managed, stage + rest, n).0 == [m] <==> Only(managed, fits, m))
      && (Decide(managed, stage + rest, n).1 <==> Several(managed, fits))
  {
    if stage == [] {
      assert stage + rest == rest;
    } else {
      assert (stage + rest)[1..] == rest;
      VerdictIs(managed, stage[0], fits);
    }
  }

  lemma DefaultIsPlain(key: string)
    requires key == DEFAULT_WIFI_DEVICE_KEY
    ensures KeepAlnum(Lower(key)) == key
  {
    assert forall i :: 0 <= i < |key| ==> 'a' <= key[i] <= 'z';
    PlainIsFixed(key);
  }

  lemma KeyReads(m: Managed, key: string)
    ensures Fits(m, KeyIs(ClaimKey(key))) <==> CarriesKey(m, key)
  {
    if key == "" {
      DefaultIsPlain(DEFAULT_WIFI_DEVICE_KEY);
      assert KeepAlnum(Lower(key)) == "";
    }
  }

  lemma NothingFits(managed: seq<Managed>, fits: Managed -> bool, m: Managed)
    ensures NoneFits(managed, fits) ==> !Only(managed, fits, m) && !Several(managed, fits)
  {
  }

  /** Three stages in turn, whatever they look for. */
  lemma StagesAre(managed: seq<Managed>, first: seq<Criterion>, second: seq<Criterion>, third: seq<Criterion>,
      n: Option<nat>, f: Managed -> bool, g: Managed -> bool, h: Managed -> bool, m: Managed)
    requires DistinctIds(managed)
    requires Asks(managed, first, f) && Asks(managed, second, g) && Asks(managed, third, h)
    ensures Decide(managed, first + second + third, n).0 == [m] <==>
      || Only(managed, f, m)
      || (NoneFits(managed, f) && Only(managed, g, m))
      || (NoneFits(managed, f) && NoneFits(managed, g) && Only(managed, h, m))
      || (NoneFits(managed, f) && NoneFits(managed, g) && NoneFits(managed, h) && OnlyPair(managed, n, m))
    ensures Decide(managed, first + second + third, n).1 <==>
      || Several(managed, f)
      || (NoneFits(managed, f) && Several(managed, g))
      || (NoneFits(managed, f) && NoneFits(managed, g) && Several(managed, h))
  {
    assert third + [] == third;
    assert first + second + third == first + (second + third);
    StageIs(managed, third, [], n, h);
    StageIs(managed, second, third, n, g);
    StageIs(managed, first, second + third, n, f);
    NothingFits(managed, f, m);
    NothingFits(managed, g, m);
    NothingFits(managed, h, m);
  }

  /** For a claim without a device id, over a catalogue with one row per id: the device offered
      for replacement is the one the claim names, and the answer is ambiguous exactly when the
      deciding criterion fits several. */
  lemma OfferedIff(managed: seq<Managed>, c: Claim, storedCount: Option<nat>, m: Managed)
    requires DistinctIds(managed) && c.deviceId.None?
    ensures MatchManaged(managed, c, storedCount).0 == [m] <==> Names(managed, c, storedCount, m)
    ensures MatchManaged(managed, c, storedCount).1 <==> Disputed(managed, c)
  {
    var deployed, current, keyed := ByHash(c.deployedHash), ByHash(c.commandsHash), ByKey(c.key);
    var first := if Strip(c.deployedHash) == "" then [] else [HashIs(Strip(c.deployedHash))];
    var second := if Strip(c.commandsHash) == "" then [] else [HashIs(Strip(c.commandsHash))];
    var third := [KeyIs(ClaimKey(c.key))];
    forall x ensures Fits(x, third[0]) <==> keyed(x) { KeyReads(x, c.key); }
    StagesAre(managed, first, second, third, storedCount, deployed, current, keyed, m);
  }

  /** The claim entitles its deploy to delete this device: it carries the id, a hash or the key
      the claim knows, or it is the only device and no other record is stored. */
  predicate Entitled(managed: seq<Managed>, c: Claim, storedCount: Option<nat>, id: int) {
    exists m :: m in managed && m.id == id &&
      if c.deviceId.Some? then c.deviceId == Some(id)
      else CarriesHash(m, c.deployedHash) || CarriesHash(m, c.commandsHash) || CarriesKey(m, c.key)
           || OnlyPair(managed, storedCount, m)
  }

  lemma OfferedIsEntitled(managed: seq<Managed>, c: Claim, storedCount: Option<nat>)
    requires DistinctIds(managed)
    ensures forall m :: m in MatchManaged(managed, c, storedCount).0 ==> Entitled(managed, c, storedCount, m.id)
  {
    var offered := MatchManaged(managed, c, storedCount).0;
    AtMostOneIsReplaced(managed, c, storedCount);
    forall m | m in offered ensures Entitled(managed, c, storedCount, m.id) {
      if c.deviceId.None? {
        assert offered == [m];
        OfferedIff(managed, c, storedCount, m);
      }
    }
  }
}

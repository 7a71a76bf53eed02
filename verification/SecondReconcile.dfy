/** Running the ownership reconcile again on the store it wrote: when the second run changes
    nothing, device by device. */
module SecondReconcile {
  import opened Text
  import opened Ownership

  // ------------------------------------------- a run, as owners by device

  function KeysOf(owners: seq<Option<string>>): set<string> {
    set o | o in owners && o.Some? :: o.value
  }

  /** The loop skips an owner without a key. */
  function Named(owner: Option<string>): Option<string> { if owner == Some("") then None else owner }

  /** Who the loop gives the first n devices to. */
  function OwnersBy(managed: seq<Managed>, choose: Chooser, n: nat): (r: seq<Option<string>>)
    requires n <= |managed|
    ensures |r| == n
  {
    if n == 0 then []
    else
      var front := OwnersBy(managed, choose, n - 1);
      front + [Named(choose(managed[n - 1], KeysOf(front)))]
  }

  function Owners(managed: seq<Managed>, stored: seq<Stored>): seq<Option<string>> {
    OwnersBy(managed, OwnerOf(stored, |managed|), |managed|)
  }

  lemma {:induction false} OwnersPrefix(managed: seq<Managed>, choose: Chooser, n: nat, i: nat)
    requires i <= n <= |managed|
    ensures OwnersBy(managed, choose, n)[..i] == OwnersBy(managed, choose, i)
    ensures i < n ==> OwnersBy(managed, choose, n)[i] == Named(choose(managed[i], KeysOf(OwnersBy(managed, choose, i))))
    decreases n
  {
    if i < n {
      OwnersPrefix(managed, choose, n - 1, i);
      assert OwnersBy(managed, choose, n)[..i] == OwnersBy(managed, choose, n - 1)[..i];
    } else {
      assert OwnersBy(managed, choose, n)[..n] == OwnersBy(managed, choose, n);
    }
  }

  /** The owners a run determines: each chosen given the keys of those before it. */
  predicate IsRun(owners: seq<Option<string>>, managed: seq<Managed>, choose: Chooser) {
    && |owners| == |managed|
    && forall i {:trigger owners[i]} :: 0 <= i < |owners| ==>
        owners[i] == Named(choose(managed[i], KeysOf(owners[..i])))
  }

  lemma OwnersAreARun(managed: seq<Managed>, choose: Chooser)
    ensures IsRun(OwnersBy(managed, choose, |managed|), managed, choose)
  {
    var owners := OwnersBy(managed, choose, |managed|);
    forall i | 0 <= i < |owners| ensures owners[i] == Named(choose(managed[i], KeysOf(owners[..i]))) {
      OwnersPrefix(managed, choose, |managed|, i);
    }
  }

  function AssignmentsOf(managed: seq<Managed>, owners: seq<Option<string>>, i: nat): seq<Assignment>
    requires i <= |owners| == |managed|
    decreases |managed| - i
  {
    if i == |managed| then []
    else
      (if owners[i].Some? then [Assignment(owners[i].value, managed[i].id, managed[i].hash)] else [])
      + AssignmentsOf(managed, owners, i + 1)
  }

  lemma KeysOfMore(owners: seq<Option<string>>, i: nat)
    requires i < |owners|
    ensures KeysOf(owners[..i + 1]) == KeysOf(owners[..i]) + (if owners[i].Some? then {owners[i].value} else {})
  {
    assert owners[..i + 1] == owners[..i] + [owners[i]];
  }

  lemma AssignByStep(managed: seq<Managed>, i: nat, choose: Chooser, taken: set<string>, owner: Option<string>)
    requires i < |managed| && Named(choose(managed[i], taken)) == owner
    ensures AssignBy(managed, i, choose, taken)
         == (if owner.Some? then [Assignment(owner.value, managed[i].id, managed[i].hash)] else [])
            + AssignBy(managed, i + 1, choose, taken + (if owner.Some? then {owner.value} else {}))
  {
    assert taken + {} == taken;
  }

  lemma {:induction false} AssignByIs(managed: seq<Managed>, i: nat, choose: Chooser, owners: seq<Option<string>>)
    requires IsRun(owners, managed, choose) && i <= |managed|
    ensures AssignBy(managed, i, choose, KeysOf(owners[..i])) == AssignmentsOf(managed, owners, i)
    decreases |managed| - i
  {
    if i < |managed| {
      assert owners[i] == Named(choose(managed[i], KeysOf(owners[..i])));
      KeysOfMore(owners, i);
      AssignByStep(managed, i, choose, KeysOf(owners[..i]), owners[i]);
      AssignByIs(managed, i + 1, choose, owners);
    }
  }

  lemma AssignIs(managed: seq<Managed>, stored: seq<Stored>, owners: seq<Option<string>>)
    requires IsRun(owners, managed, OwnerOf(stored, |managed|))
    ensures Assign(managed, stored) == AssignmentsOf(managed, owners, 0)
  {
    assert KeysOf(owners[..0]) == {};
    AssignByIs(managed, 0, OwnerOf(stored, |managed|), owners);
  }

  predicate Gets(managed: seq<Managed>, owners: seq<Option<string>>, j: nat, a: Assignment)
    requires j < |owners| == |managed|
  {
    owners[j] == Some(a.key) && managed[j].id == a.id && managed[j].hash == a.hash
  }

  lemma {:induction false} InAssignments(managed: seq<Managed>, owners: seq<Option<string>>, i: nat, a: Assignment)
    requires i <= |owners| == |managed|
    ensures a in AssignmentsOf(managed, owners, i) <==> exists j :: i <= j < |managed| && Gets(managed, owners, j, a)
    decreases |managed| - i
  {
    if i < |managed| {
      InAssignments(managed, owners, i + 1, a);
      assert Gets(managed, owners, i, a) ==> a in AssignmentsOf(managed, owners, i);
    }
  }

  /** No record is given to two devices. */
  predicate OneEach(owners: seq<Option<string>>) {
    forall i, j :: 0 <= i < j < |owners| && owners[i].Some? ==> owners[i] != owners[j]
  }

  lemma RunIsOneEach(owners: seq<Option<string>>, managed: seq<Managed>, choose: Chooser, stored: seq<Stored>)
    requires IsRun(owners, managed, choose) && ProposesFree(choose, stored)
    ensures OneEach(owners)
    ensures forall i :: 0 <= i < |owners| && owners[i].Some? ==> HasKey(stored, owners[i].value)
  {
    forall i, j | 0 <= i < j < |owners| && owners[i].Some? ensures owners[i] != owners[j] {
      assert owners[..j][i] == owners[i];
      assert owners[i].value in KeysOf(owners[..j]);
    }
  }

  // ---------------------------------------------------- the written store

  /** A record given to device j holds its id and hash ... */
  lemma WrittenFor(managed: seq<Managed>, owners: seq<Option<string>>, s: Stored, j: nat)
    requires j < |owners| == |managed| && OneEach(owners) && owners[j] == Some(s.key)
    ensures WriteStored(s, AssignmentsOf(managed, owners, 0))
         == s.(deviceId := Some(managed[j].id), deployedHash := Strip(managed[j].hash))
  {
    var all, mine := AssignmentsOf(managed, owners, 0), Assignment(s.key, managed[j].id, managed[j].hash);
    LookupFinds(all, s.key);
    InAssignments(managed, owners, 0, mine);
    assert Gets(managed, owners, j, mine);
    var found := Lookup(all, s.key).value;
    InAssignments(managed, owners, 0, found);
    var k :| 0 <= k < |managed| && Gets(managed, owners, k, found);
    assert owners[k] == owners[j];
  }

  /** ... and a record given to none holds nothing. */
  lemma WrittenFree(managed: seq<Managed>, owners: seq<Option<string>>, s: Stored)
    requires |owners| == |managed| && Some(s.key) !in owners
    ensures WriteStored(s, AssignmentsOf(managed, owners, 0)) == s.(deviceId := None, deployedHash := "")
  {
    var all := AssignmentsOf(managed, owners, 0);
    LookupFinds(all, s.key);
    if Lookup(all, s.key).Some? { InAssignments(managed, owners, 0, Lookup(all, s.key).value); }
  }

  /** The devices from i on whose records the write leaves under the hash device i carries. */
  function Rivals(managed: seq<Managed>, owners: seq<Option<string>>, i: nat): set<nat>
    requires i < |owners| == |managed|
  {
    set j: nat | i <= j < |managed| && owners[j].Some? && Strip(managed[j].hash) == managed[i].hash
  }

  lemma FreeFromOn(owners: seq<Option<string>>, i: nat, j: nat)
    requires OneEach(owners) && i <= |owners| && j < |owners| && owners[j].Some?
    ensures owners[j].value !in KeysOf(owners[..i]) <==> i <= j
  {
    if j < i { assert owners[..i][j] in owners[..i]; }
  }

  lemma OwnedHashCandidate(managed: seq<Managed>, owners: seq<Option<string>>, i: nat, s: Stored, j: nat)
    requires i < |owners| == |managed| && OneEach(owners) && j < |owners| && owners[j] == Some(s.key)
    ensures Candidate(WriteStored(s, AssignmentsOf(managed, owners, 0)), ByDeployedHash(managed[i].hash),
        KeysOf(owners[..i]))
       <==> j in Rivals(managed, owners, i)
  {
    WrittenFor(managed, owners, s, j);
    FreeFromOn(owners, i, j);
  }

  /** Written under device i's hash and not taken before it: exactly the rivals' records. */
  lemma HashCandidate(managed: seq<Managed>, owners: seq<Option<string>>, i: nat, s: Stored)
    requires i < |owners| == |managed| && OneEach(owners) && managed[i].hash != ""
    ensures Candidate(WriteStored(s, AssignmentsOf(managed, owners, 0)), ByDeployedHash(managed[i].hash),
        KeysOf(owners[..i]))
       <==> exists j :: j in Rivals(managed, owners, i) && owners[j] == Some(s.key)
  {
    if Some(s.key) in owners {
      var j :| 0 <= j < |owners| && owners[j] == Some(s.key);
      OwnedHashCandidate(managed, owners, i, s, j);
      if l :| l in Rivals(managed, owners, i) && owners[l] == Some(s.key) { assert l == j; }
    } else {
      WrittenFree(managed, owners, s);
    }
  }

  /** The hash stage of the second run finds a record exactly when one rival is left. */
  lemma HashPick(managed: seq<Managed>, stored: seq<Stored>, owners: seq<Option<string>>, i: nat, k: string)
    requires i < |owners| == |managed| && OneEach(owners) && managed[i].hash != "" && DistinctStoredKeys(stored)
    requires forall j :: 0 <= j < |owners| && owners[j].Some? ==> HasKey(stored, owners[j].value)
    ensures PickUnique(WriteAll(stored, AssignmentsOf(managed, owners, 0)), ByDeployedHash(managed[i].hash),
                       KeysOf(owners[..i])) == Some(k)
       <==> exists j :: Rivals(managed, owners, i) == {j} && owners[j] == Some(k)
  {
    var all := AssignmentsOf(managed, owners, 0);
    var after, stage, taken := WriteAll(stored, all), ByDeployedHash(managed[i].hash), KeysOf(owners[..i]);
    var rivals := Rivals(managed, owners, i);
    KeysAreKept(stored, all);
    PickUniqueIff(after, stage, taken, k);
    forall r | 0 <= r < |after|
      ensures Candidate(after[r], stage, taken) <==> exists j :: j in rivals && owners[j] == Some(after[r].key)
    {
      HashCandidate(managed, owners, i, stored[r]);
    }
    OneRival(after, stage, taken, owners, rivals, k);
  }

  lemma OneRival(after: seq<Stored>, stage: Stage, taken: set<string>, owners: seq<Option<string>>, rivals: set<nat>,
      k: string)
    requires OneEach(owners) && forall j :: j in rivals ==>
        j < |owners| && owners[j].Some? && HasKey(after, owners[j].value)
    requires forall r :: 0 <= r < |after| ==>
      (Candidate(after[r], stage, taken) <==> exists j :: j in rivals && owners[j] == Some(after[r].key))
    ensures OnlyKey(after, stage, taken, k) <==> exists j :: rivals == {j} && owners[j] == Some(k)
  {
    if OnlyKey(after, stage, taken, k) {
      var s :| s in after && Candidate(s, stage, taken);
      var r :| 0 <= r < |after| && after[r] == s;
      var j :| j in rivals && owners[j] == Some(after[r].key);
      forall l | l in rivals ensures l == j {
        var q :| 0 <= q < |after| && after[q].key == owners[l].value;
        assert Candidate(after[q], stage, taken);
      }
      assert rivals == {j};
    }
    if j :| rivals == {j} && owners[j] == Some(k) {
      assert j in rivals;
      var r :| 0 <= r < |after| && after[r].key == k;
      assert Candidate(after[r], stage, taken);
      forall s | s in after && Candidate(s, stage, taken) ensures s.key == k {
        var q :| 0 <= q < |after| && after[q] == s;
      }
    }
  }

  lemma KeysAreKept(stored: seq<Stored>, all: seq<Assignment>)
    ensures DistinctStoredKeys(stored) ==> DistinctStoredKeys(WriteAll(stored, all))
    ensures forall k :: HasKey(WriteAll(stored, all), k) <==> HasKey(stored, k)
  {
    forall k ensures HasKey(WriteAll(stored, all), k) <==> HasKey(stored, k) {
      WriteKeepsKeys(stored, all, k);
    }
  }

  /** The write does not touch what the commands-hash stage looks at. */
  lemma CommandsPick(stored: seq<Stored>, all: seq<Assignment>, hash: string, taken: set<string>)
    requires DistinctStoredKeys(stored)
    ensures PickUnique(WriteAll(stored, all), ByCommandsHash(hash), taken)
       == PickUnique(stored, ByCommandsHash(hash), taken)
  {
    var after, stage := WriteAll(stored, all), ByCommandsHash(hash);
    KeysAreKept(stored, all);
    SamePick(stored, after, stage, taken);
  }

  predicate SameCandidates(xs: seq<Stored>, ys: seq<Stored>, stage: Stage, taken: set<string>) {
    |xs| == |ys| && forall r :: 0 <= r < |xs| ==>
      xs[r].key == ys[r].key && (Candidate(xs[r], stage, taken) <==> Candidate(ys[r], stage, taken))
  }

  lemma SamePick(xs: seq<Stored>, ys: seq<Stored>, stage: Stage, taken: set<string>)
    requires DistinctStoredKeys(xs) && DistinctStoredKeys(ys) && SameCandidates(xs, ys, stage, taken)
    ensures PickUnique(xs, stage, taken) == PickUnique(ys, stage, taken)
  {
    forall k ensures PickUnique(xs, stage, taken) == Some(k) <==> PickUnique(ys, stage, taken) == Some(k) {
      PickUniqueIff(xs, stage, taken, k);
      PickUniqueIff(ys, stage, taken, k);
      if OnlyKey(xs, stage, taken, k) { CandidatesCarryOver(xs, ys, stage, taken, k); }
      if OnlyKey(ys, stage, taken, k) { CandidatesCarryOver(ys, xs, stage, taken, k); }
    }
  }

  lemma CandidatesCarryOver(xs: seq<Stored>, ys: seq<Stored>, stage: Stage, taken: set<string>, k: string)
    requires SameCandidates(xs, ys, stage, taken) && OnlyKey(xs, stage, taken, k)
    ensures OnlyKey(ys, stage, taken, k)
  {
    var s :| s in xs && Candidate(s, stage, taken);
    var r :| 0 <= r < |xs| && xs[r] == s;
    assert ys[r] in ys;
    forall t | t in ys && Candidate(t, stage, taken) ensures t.key == k {
      var q :| 0 <= q < |ys| && ys[q] == t;
      assert xs[q] in xs;
    }
  }

  /** By id the second run finds the device's own record, if it got one. */
  lemma IdPick(managed: seq<Managed>, stored: seq<Stored>, owners: seq<Option<string>>, i: nat)
    requires i < |owners| == |managed| && OneEach(owners) && DistinctIds(managed) && DistinctStoredKeys(stored)
    requires owners[i].Some? ==> HasKey(stored, owners[i].value)
    ensures PickUnique(WriteAll(stored, AssignmentsOf(managed, owners, 0)), ByDeviceId(managed[i].id),
                       KeysOf(owners[..i])) == owners[i]
  {
    var all := AssignmentsOf(managed, owners, 0);
    var after, stage, taken := WriteAll(stored, all), ByDeviceId(managed[i].id), KeysOf(owners[..i]);
    KeysAreKept(stored, all);
    forall r | 0 <= r < |after| ensures Candidate(after[r], stage, taken) <==> owners[i] == Some(after[r].key) {
      IdCandidate(managed, owners, i, stored[r]);
    }
    forall k ensures PickUnique(after, stage, taken) == Some(k) <==> owners[i] == Some(k) {
      PickUniqueIff(after, stage, taken, k);
      OneHolder(after, stage, taken, owners[i], k);
    }
  }

  lemma IdCandidate(managed: seq<Managed>, owners: seq<Option<string>>, i: nat, s: Stored)
    requires i < |owners| == |managed| && OneEach(owners) && DistinctIds(managed)
    ensures Candidate(WriteStored(s, AssignmentsOf(managed, owners, 0)), ByDeviceId(managed[i].id), KeysOf(owners[..i]))
       <==> owners[i] == Some(s.key)
  {
    if Some(s.key) in owners {
      var j :| 0 <= j < |owners| && owners[j] == Some(s.key);
      WrittenFor(managed, owners, s, j);
      FreeFromOn(owners, i, j);
    } else {
      WrittenFree(managed, owners, s);
    }
  }

  lemma OneHolder(after: seq<Stored>, stage: Stage, taken: set<string>, owner: Option<string>, k: string)
    requires forall r :: 0 <= r < |after| ==> (Candidate(after[r], stage, taken) <==> owner == Some(after[r].key))
    requires owner.Some? ==> HasKey(after, owner.value)
    ensures OnlyKey(after, stage, taken, k) <==> owner == Some(k)
  {
    if owner.Some? {
      var r :| 0 <= r < |after| && after[r].key == owner.value;
      assert after[r] in after;
    }
    forall s | s in after && Candidate(s, stage, taken) ensures owner == Some(s.key) {
      var q :| 0 <= q < |after| && after[q] == s;
    }
  }

  // ------------------------------------------------------- device by device

  /** The brand key decides: it names a record still free. */
  predicate SentHome(m: Managed, stored: seq<Stored>, taken: set<string>) {
    m.key.Some? && m.key.value != "" && HasKey(stored, m.key.value) && m.key.value !in taken
  }

  /** Device i meets its owner again: by its brand key; or, when exactly one record from here
      on is left under its hash, because that record is its own; or else because the
      commands-hash stage names nobody or its owner. */
  predicate Settles(managed: seq<Managed>, stored: seq<Stored>, owners: seq<Option<string>>, i: nat)
    requires i < |owners| == |managed|
  {
    var taken, rivals := KeysOf(owners[..i]), Rivals(managed, owners, i);
    || SentHome(managed[i], stored, taken)
    || (if |rivals| == 1 then rivals == {i}
        else var byCommands := PickUnique(stored, ByCommandsHash(managed[i].hash), taken);
             byCommands.None? || byCommands == owners[i])
  }

  /** What the stages of the second run make of device i. */
  lemma SecondOwner(m: Managed, stored: seq<Stored>, after: seq<Stored>, taken: set<string>, total: nat,
      owner: Option<string>)
    requires Owner(m, stored, taken, total) == owner
    requires |after| == |stored| && forall r :: 0 <= r < |after| ==> after[r].key == stored[r].key
    requires forall k :: HasKey(after, k) <==> HasKey(stored, k)
    requires PickUnique(after, ByCommandsHash(m.hash), taken) == PickUnique(stored, ByCommandsHash(m.hash), taken)
    requires PickUnique(after, ByDeviceId(m.id), taken) == owner
    ensures SentHome(m, stored, taken) ==> Owner(m, after, taken, total) == owner
    ensures !SentHome(m, stored, taken) ==>
      Owner(m, after, taken, total) == OrElse(PickUnique(after, ByDeployedHash(m.hash), taken),
                                              OrElse(PickUnique(stored, ByCommandsHash(m.hash), taken), owner))
  {
  }

  lemma SingleIs(rivals: set<nat>, owners: seq<Option<string>>, pick: Option<string>, owner: Option<string>, i: nat)
    requires i < |owners| && owner == owners[i] && OneEach(owners)
    requires forall j :: j in rivals ==> j < |owners| && owners[j].Some?
    requires forall k :: pick == Some(k) <==> exists j :: rivals == {j} && owners[j] == Some(k)
    ensures pick.Some? <==> |rivals| == 1
    ensures pick.Some? ==> (pick == owner <==> rivals == {i})
  {
    if |rivals| == 1 {
      var j := OnlyOf(rivals);
      assert j in rivals;
      assert pick == owners[j];
    }
    if pick.Some? {
      var j :| rivals == {j} && owners[j] == Some(pick.value);
      assert i in {i} && j in {j};
    }
  }

  ghost function OnlyOf(s: set<nat>): (e: nat)
    requires |s| == 1
    ensures s == {e}
  {
    var e :| e in s;
    assert |s - {e}| == 0;
    e
  }

  /** Asked again on the written store, device i gets the same owner exactly when it settles. */
  lemma SameOwnerIff(managed: seq<Managed>, stored: seq<Stored>, owners: seq<Option<string>>, i: nat)
    requires IsRun(owners, managed, OwnerOf(stored, |managed|)) && i < |managed|
    requires DistinctIds(managed) && DistinctStoredKeys(stored) && managed[i].hash != "" && !HasKey(stored, "")
    ensures Owner(managed[i], WriteAll(stored, AssignmentsOf(managed, owners, 0)), KeysOf(owners[..i]), |managed|)
       == owners[i]
       <==> Settles(managed, stored, owners, i)
  {
    var all, m, taken := AssignmentsOf(managed, owners, 0), managed[i], KeysOf(owners[..i]);
    var after := WriteAll(stored, all);
    OwnerIsFree(stored, |managed|);
    RunIsOneEach(owners, managed, OwnerOf(stored, |managed|), stored);
    assert owners[i] == Named(OwnerOf(stored, |managed|)(m, taken));
    KeysAreKept(stored, all);
    CommandsPick(stored, all, m.hash, taken);
    IdPick(managed, stored, owners, i);
    SecondOwner(m, stored, after, taken, |managed|, owners[i]);
    forall k ensures PickUnique(after, ByDeployedHash(m.hash), taken) == Some(k)
      <==> exists j :: Rivals(managed, owners, i) == {j} && owners[j] == Some(k)
    {
      HashPick(managed, stored, owners, i, k);
    }
    SingleIs(Rivals(managed, owners, i), owners, PickUnique(after, ByDeployedHash(m.hash), taken), owners[i], i);
  }

  // ---------------------------------------------------------- the whole run

  /** Two runs that write the same store gave every device the same owner. */
  lemma SameWriteSameOwners(managed: seq<Managed>, stored: seq<Stored>, owners: seq<Option<string>>,
      again: seq<Option<string>>, i: nat)
    requires i < |owners| == |managed| == |again| && OneEach(owners) && OneEach(again) && DistinctIds(managed)
    requires owners[i].Some? ==> HasKey(stored, owners[i].value)
    requires WriteAll(stored, AssignmentsOf(managed, again, 0)) == WriteAll(stored, AssignmentsOf(managed, owners, 0))
    ensures owners[i].Some? ==> again[i] == owners[i]
  {
    if owners[i].Some? {
      var r :| 0 <= r < |stored| && stored[r].key == owners[i].value;
      WrittenFor(managed, owners, stored[r], i);
      if Some(stored[r].key) in again {
        var j :| 0 <= j < |again| && again[j] == Some(stored[r].key);
        WrittenFor(managed, again, stored[r], j);
        assert managed[j].id == managed[i].id;
      } else {
        WrittenFree(managed, again, stored[r]);
      }
    }
  }

  lemma WriteOver(stored: seq<Stored>, first: seq<Assignment>, second: seq<Assignment>)
    ensures WriteAll(WriteAll(stored, first), second) == WriteAll(stored, second)
  {
  }

  lemma {:induction false} SameRun(managed: seq<Managed>, a: seq<Option<string>>, b: seq<Option<string>>,
      choose: Chooser, n: nat)
    requires IsRun(b, managed, choose) && |a| == |managed| && n <= |managed|
    requires forall i :: 0 <= i < n ==> Named(choose(managed[i], KeysOf(a[..i]))) == a[i]
    ensures a[..n] == b[..n]
  {
    if n > 0 {
      SameRun(managed, a, b, choose, n - 1);
      assert b[n - 1] == Named(choose(managed[n - 1], KeysOf(b[..n - 1])));
      assert a[..n] == a[..n - 1] + [a[n - 1]] && b[..n] == b[..n - 1] + [b[n - 1]];
    }
  }

  predicate AllSettle(managed: seq<Managed>, stored: seq<Stored>, owners: seq<Option<string>>) {
    |owners| == |managed| && forall i :: 0 <= i < |managed| ==> Settles(managed, stored, owners, i)
  }

  predicate Readable(managed: seq<Managed>, stored: seq<Stored>) {
    && DistinctIds(managed) && DistinctStoredKeys(stored) && !HasKey(stored, "")
    && forall i :: 0 <= i < |managed| ==> managed[i].hash != ""
  }

  lemma SettledRunsAgree(managed: seq<Managed>, stored: seq<Stored>, owners: seq<Option<string>>,
      again: seq<Option<string>>)
    requires Readable(managed, stored) && IsRun(owners, managed, OwnerOf(stored, |managed|))
    requires IsRun(again, managed, OwnerOf(WriteAll(stored, AssignmentsOf(managed, owners, 0)), |managed|))
    requires AllSettle(managed, stored, owners)
    ensures again == owners
  {
    var after := WriteAll(stored, AssignmentsOf(managed, owners, 0));
    forall i | 0 <= i < |managed|
      ensures Named(OwnerOf(after, |managed|)(managed[i], KeysOf(owners[..i]))) == owners[i]
    {
      SameOwnerIff(managed, stored, owners, i);
      assert owners[i] == Named(OwnerOf(stored, |managed|)(managed[i], KeysOf(owners[..i])));
    }
    SameRun(managed, owners, again, OwnerOf(after, |managed|), |managed|);
    assert owners[..|managed|] == owners && again[..|managed|] == again;
  }

  lemma AgreeingRunsSettle(managed: seq<Managed>, stored: seq<Stored>, owners: seq<Option<string>>)
    requires Readable(managed, stored) && IsRun(owners, managed, OwnerOf(stored, |managed|))
    requires IsRun(owners, managed, OwnerOf(WriteAll(stored, AssignmentsOf(managed, owners, 0)), |managed|))
    ensures AllSettle(managed, stored, owners)
  {
    var all := AssignmentsOf(managed, owners, 0);
    var after := WriteAll(stored, all);
    forall i | 0 <= i < |managed| ensures Settles(managed, stored, owners, i) {
      assert owners[i] == Named(OwnerOf(after, |managed|)(managed[i], KeysOf(owners[..i])));
      KeysAreKept(stored, all);
      SameOwnerIff(managed, stored, owners, i);
    }
  }

  lemma SameWriteSameRun(managed: seq<Managed>, stored: seq<Stored>, owners: seq<Option<string>>,
      again: seq<Option<string>>)
    requires Readable(managed, stored) && IsRun(owners, managed, OwnerOf(stored, |managed|))
    requires IsRun(again, managed, OwnerOf(WriteAll(stored, AssignmentsOf(managed, owners, 0)), |managed|))
    requires WriteAll(stored, AssignmentsOf(managed, again, 0)) == WriteAll(stored, AssignmentsOf(managed, owners, 0))
    ensures again == owners
  {
    var all := AssignmentsOf(managed, owners, 0);
    var after := WriteAll(stored, all);
    OwnerIsFree(stored, |managed|);
    OwnerIsFree(after, |managed|);
    RunIsOneEach(owners, managed, OwnerOf(stored, |managed|), stored);
    RunIsOneEach(again, managed, OwnerOf(after, |managed|), after);
    KeysAreKept(stored, all);
    forall i | 0 <= i < |managed| ensures again[i] == owners[i] {
      SameWriteSameOwners(managed, stored, owners, again, i);
      SameWriteSameOwners(managed, stored, again, owners, i);
    }
  }

  /** A second reconcile changes nothing if and only if every device settles. */
  lemma SecondRunIsStableIff(managed: seq<Managed>, stored: seq<Stored>)
    requires Readable(managed, stored)
    ensures var after := WriteAll(stored, Assign(managed, stored));
      && (WriteAll(after, Assign(managed, after)) == after <==> AllSettle(managed, stored, Owners(managed, stored)))
      && (Assign(managed, after) == Assign(managed, stored) <==> AllSettle(managed, stored, Owners(managed, stored)))
  {
    var owners := Owners(managed, stored);
    OwnersAreARun(managed, OwnerOf(stored, |managed|));
    AssignIs(managed, stored, owners);
    var all := AssignmentsOf(managed, owners, 0);
    var after := WriteAll(stored, all);
    var again := Owners(managed, after);
    OwnersAreARun(managed, OwnerOf(after, |managed|));
    AssignIs(managed, after, again);
    WriteOver(stored, all, AssignmentsOf(managed, again, 0));
    WriteOver(stored, all, all);
    if AllSettle(managed, stored, owners) {
      SettledRunsAgree(managed, stored, owners, again);
    }
    if WriteAll(stored, AssignmentsOf(managed, again, 0)) == after {
      SameWriteSameRun(managed, stored, owners, again);
      AgreeingRunsSettle(managed, stored, owners);
    }
  }

  // ------------------------------------------------------ where it is simple

  predicate DistinctHashes(managed: seq<Managed>) {
    && (forall i :: 0 <= i < |managed| ==> managed[i].hash != "" && Strip(managed[i].hash) == managed[i].hash)
    && (forall i, j :: 0 <= i < j < |managed| ==> managed[i].hash != managed[j].hash)
  }

  /** In particular when no two managed devices carry the same hash, whatever stages the first
      run went through. */
  lemma DistinctHashesAreStable(managed: seq<Managed>, stored: seq<Stored>)
    requires Readable(managed, stored) && DistinctHashes(managed)
    ensures var after := WriteAll(stored, Assign(managed, stored));
      Assign(managed, after) == Assign(managed, stored) && WriteAll(after, Assign(managed, after)) == after
  {
    var owners := Owners(managed, stored);
    OwnersAreARun(managed, OwnerOf(stored, |managed|));
    forall i | 0 <= i < |managed| ensures Settles(managed, stored, owners, i) {
      DistinctSettles(managed, stored, owners, i);
    }
    SecondRunIsStableIff(managed, stored);
  }

  lemma DistinctSettles(managed: seq<Managed>, stored: seq<Stored>, owners: seq<Option<string>>, i: nat)
    requires IsRun(owners, managed, OwnerOf(stored, |managed|)) && i < |managed|
    requires DistinctHashes(managed) && !HasKey(stored, "")
    ensures Settles(managed, stored, owners, i)
  {
    assert owners[i] == Named(OwnerOf(stored, |managed|)(managed[i], KeysOf(owners[..i])));
    assert forall j :: j in Rivals(managed, owners, i) ==> j == i;
    if owners[i].Some? {
      assert Rivals(managed, owners, i) == {i};
    } else {
      assert Rivals(managed, owners, i) == {};
    }
  }

  // ------------------------------------------------ where it is not stable

  const TwinDevices: seq<Managed> := [Managed(1, None, "h"), Managed(2, Some("b"), "h")]
  const TwinRecords: seq<Stored> := [Stored("a", "x", "h", None), Stored("b", "h", "y", None)]

  /** Two devices with one hash: the first run gives record "b" the device branded "b",
      the second run hands it the other one. */
  lemma SecondRunCanSwapOwners()
    ensures Assign(TwinDevices, TwinRecords) == [Assignment("a", 1, "h"), Assignment("b", 2, "h")]
    ensures var after := WriteAll(TwinRecords, Assign(TwinDevices, TwinRecords));
            Assign(TwinDevices, after) == [Assignment("b", 1, "h"), Assignment("a", 2, "h")]
  {
    StripTrimmed("h");
    FirstTwinRun();
    var first := [Assignment("a", 1, "h"), Assignment("b", 2, "h")];
    var after := WriteAll(TwinRecords, first);
    assert first[..1] == [first[0]];
    assert Lookup(first, "a") == Some(first[0]) && Lookup(first, "b") == Some(first[1]);
    assert after == [Stored("a", "x", "h", Some(1)), Stored("b", "h", "h", Some(2))];
    SecondTwinRun(after);
  }

  lemma PickOnly(stored: seq<Stored>, stage: Stage, taken: set<string>, i: nat)
    requires DistinctStoredKeys(stored) && i < |stored| && Candidate(stored[i], stage, taken)
    requires forall j :: 0 <= j < |stored| && Candidate(stored[j], stage, taken) ==> j == i
    ensures PickUnique(stored, stage, taken) == Some(stored[i].key)
  {
    assert stored[i] in stored;
    PickUniqueIff(stored, stage, taken, stored[i].key);
  }

  /** A stage answers for a brand without a key once the stages before it found nothing. */
  lemma OwnedByHash(m: Managed, stored: seq<Stored>, taken: set<string>, total: nat, key: string)
    requires m.key.None?
    requires PickUnique(stored, ByDeployedHash(m.hash), taken) == Some(key)
      || (PickUnique(stored, ByDeployedHash(m.hash), taken).None?
          && PickUnique(stored, ByCommandsHash(m.hash), taken) == Some(key))
    ensures Owner(m, stored, taken, total) == Some(key)
  {
  }

  lemma TwoDeviceRun(managed: seq<Managed>, stored: seq<Stored>, a: string, b: string)
    requires |managed| == 2 && a != "" && b != ""
    requires Owner(managed[0], stored, {}, 2) == Some(a) && Owner(managed[1], stored, {} + {a}, 2) == Some(b)
    ensures Assign(managed, stored)
         == [Assignment(a, managed[0].id, managed[0].hash), Assignment(b, managed[1].id, managed[1].hash)]
  {
    AssignStep(managed, 0, stored, {});
    AssignStep(managed, 1, stored, {} + {a});
  }

  lemma FirstTwinRun()
    ensures Assign(TwinDevices, TwinRecords) == [Assignment("a", 1, "h"), Assignment("b", 2, "h")]
  {
    var stored, managed := TwinRecords, TwinDevices;
    PickOnly(stored, ByDeployedHash("h"), {}, 0);
    OwnedByHash(managed[0], stored, {}, 2, "a");
    assert stored[1].key == "b" && HasKey(stored, "b");
    TwoDeviceRun(managed, stored, "a", "b");
  }

  /** Nothing is picked while two records match. */
  lemma PickNone(stored: seq<Stored>, stage: Stage, taken: set<string>, i: nat, j: nat)
    requires i < j < |stored| && Candidate(stored[i], stage, taken) && Candidate(stored[j], stage, taken)
    requires DistinctStoredKeys(stored)
    ensures PickUnique(stored, stage, taken).None?
  {
    assert stored[i] in stored && stored[j] in stored;
    if PickUnique(stored, stage, taken).Some? {
      PickUniqueIff(stored, stage, taken, PickUnique(stored, stage, taken).value);
    }
  }

  lemma SecondTwinRun(stored: seq<Stored>)
    requires stored == [Stored("a", "x", "h", Some(1)), Stored("b", "h", "h", Some(2))]
    ensures Assign(TwinDevices, stored) == [Assignment("b", 1, "h"), Assignment("a", 2, "h")]
  {
    var managed := TwinDevices;
    PickNone(stored, ByDeployedHash("h"), {}, 0, 1);
    PickOnly(stored, ByCommandsHash("h"), {}, 1);
    OwnedByHash(managed[0], stored, {}, 2, "b");
    PickOnly(stored, ByDeployedHash("h"), {} + {"b"}, 0);
    assert Owner(managed[1], stored, {} + {"b"}, 2) == Some("a");
    TwoDeviceRun(managed, stored, "b", "a");
  }
}

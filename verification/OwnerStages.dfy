/** Which record the ownership matching gives a device to, stage by stage, in terms of what the
    store and the brands say. */
module OwnerStages {
  import opened Text
  import opened Ownership
  import opened SecondReconcile
  import RenameLoop

  /** The brand carries the record's key. */
  predicate Branded(m: Managed, s: Stored) { m.key == Some(s.key) && s.key != "" }

  predicate DeployedAs(m: Managed, s: Stored) { s.deployedHash == m.hash }
  predicate StagedAs(m: Managed, s: Stored) { s.commandsHash == m.hash }
  predicate DeployedTo(m: Managed, s: Stored) { s.deviceId == Some(m.id) }

  predicate Fits(m: Managed, s: Stored, stage: nat) {
    match stage
    case 0 => DeployedAs(m, s)
    case 1 => StagedAs(m, s)
    case _ => DeployedTo(m, s)
  }

  /** The one record still free that fits the device at a stage. */
  predicate Sole(m: Managed, stored: seq<Stored>, taken: set<string>, stage: nat, s: Stored) {
    && s in stored && s.key !in taken && Fits(m, s, stage)
    && forall t :: t in stored && t.key !in taken && Fits(m, t, stage) ==> t == s
  }

  predicate NoSole(m: Managed, stored: seq<Stored>, taken: set<string>, stage: nat) {
    forall s :: s in stored ==> !Sole(m, stored, taken, stage, s)
  }

  /** The first of the three stages that fits just one record finds this one. */
  predicate FirstFound(m: Managed, stored: seq<Stored>, taken: set<string>, s: Stored) {
    exists n :: 0 <= n < 3 && Sole(m, stored, taken, n, s) && forall l :: 0 <= l < n ==> NoSole(m, stored, taken, l)
  }

  predicate NoneFound(m: Managed, stored: seq<Stored>, taken: set<string>) {
    forall n :: 0 <= n < 3 ==> NoSole(m, stored, taken, n)
  }

  /** Record s is the device's: its brand names it; or the brand names no record still free, and
      s alone has the brand's hash deployed, else alone has it staged, else alone is deployed to
      the device, else record and device are the only ones. */
  predicate Chosen(m: Managed, stored: seq<Stored>, taken: set<string>, total: nat, s: Stored) {
    && s in stored && s.key !in taken
    && (Branded(m, s)
        || ((forall t :: t in stored && t.key !in taken ==> !Branded(m, t))
            && (FirstFound(m, stored, taken, s)
                || (NoneFound(m, stored, taken) && stored == [s] && total == 1 && s.key != ""))))
  }

  function StageOf(m: Managed, stage: nat): Stage {
    match stage
    case 0 => ByDeployedHash(m.hash)
    case 1 => ByCommandsHash(m.hash)
    case _ => ByDeviceId(m.id)
  }

  lemma StageIs(m: Managed, stored: seq<Stored>, taken: set<string>, stage: nat, s: Stored)
    requires DistinctStoredKeys(stored) && s in stored
    ensures PickUnique(stored, StageOf(m, stage), taken) == Some(s.key) <==> Sole(m, stored, taken, stage, s)
  {
    PickUniqueIff(stored, StageOf(m, stage), taken, s.key);
  }

  /** The brand stage passes when the brand names no record still free. */
  lemma BrandIs(m: Managed, stored: seq<Stored>, taken: set<string>, s: Stored)
    requires DistinctStoredKeys(stored) && s in stored && s.key !in taken
    ensures Branded(m, s) ==> forall total :: Owner(m, stored, taken, total) == Some(s.key)
    ensures (forall t :: t in stored && t.key !in taken ==> !Branded(m, t)) ==>
      forall total :: Owner(m, stored, taken, total) == OwnerByStages(m, stored, taken, total)
    ensures !Branded(m, s) && (exists t :: t in stored && t.key !in taken && Branded(m, t)) ==>
      forall total :: Owner(m, stored, taken, total) != Some(s.key)
  {
    var i :| 0 <= i < |stored| && stored[i] == s;
    if m.key.Some? && m.key.value != "" && m.key.value !in taken && HasKey(stored, m.key.value) {
      var j :| 0 <= j < |stored| && stored[j].key == m.key.value;
      assert stored[j] in stored && Branded(m, stored[j]);
    }
    if t :| t in stored && t.key !in taken && Branded(m, t) {
      var k :| 0 <= k < |stored| && stored[k] == t;
      assert HasKey(stored, t.key);
    }
  }

  /** Where a stage finds nothing, no record is its sole fit. */
  lemma StageIsEmpty(m: Managed, stored: seq<Stored>, taken: set<string>, stage: nat)
    requires DistinctStoredKeys(stored)
    ensures PickUnique(stored, StageOf(m, stage), taken).None? <==> NoSole(m, stored, taken, stage)
  {
    forall s | s in stored
      ensures PickUnique(stored, StageOf(m, stage), taken) == Some(s.key) <==> Sole(m, stored, taken, stage, s)
    {
      StageIs(m, stored, taken, stage, s);
    }
  }

  lemma StagesAre(m: Managed, stored: seq<Stored>, taken: set<string>, total: nat, s: Stored)
    requires DistinctStoredKeys(stored) && s in stored && s.key !in taken
    ensures OwnerByStages(m, stored, taken, total) == Some(s.key) <==>
      || FirstFound(m, stored, taken, s)
      || (NoneFound(m, stored, taken) && stored == [s] && total == 1 && s.key != "")
  {
    forall n: nat | n < 3
      ensures PickUnique(stored, StageOf(m, n), taken) == Some(s.key) <==> Sole(m, stored, taken, n, s)
      ensures PickUnique(stored, StageOf(m, n), taken).None? <==> NoSole(m, stored, taken, n)
    {
      StageIs(m, stored, taken, n, s);
      StageIsEmpty(m, stored, taken, n);
    }
    assert StageOf(m, 0) == ByDeployedHash(m.hash) && StageOf(m, 1) == ByCommandsHash(m.hash);
    assert StageOf(m, 2) == ByDeviceId(m.id);
    assert |stored| == 1 ==> stored[0] == s;
  }

  /** The matching's choice for one device, given the records taken before it. */
  lemma OwnerIff(m: Managed, stored: seq<Stored>, taken: set<string>, total: nat, s: Stored)
    requires DistinctStoredKeys(stored) && s in stored
    ensures Owner(m, stored, taken, total) == Some(s.key) <==> Chosen(m, stored, taken, total, s)
  {
    if s.key !in taken {
      BrandIs(m, stored, taken, s);
      StagesAre(m, stored, taken, total, s);
    }
  }

  /** A record goes to a device exactly when it is chosen for it among the records that no earlier
      device of the catalogue was given. */
  lemma AssignedIff(managed: seq<Managed>, stored: seq<Stored>, i: nat, s: Stored)
    requires DistinctIds(managed) && DistinctStoredKeys(stored) && i < |managed| && s in stored && s.key != ""
    ensures Lookup(Assign(managed, stored), s.key) == Some(Assignment(s.key, managed[i].id, managed[i].hash))
       <==> Chosen(managed[i], stored, KeysOf(Owners(managed, stored)[..i]), |managed|, s)
  {
    var owners := Owners(managed, stored);
    var taken := KeysOf(owners[..i]);
    RenameLoop.LookupIsOwner(managed, stored, i, s.key);
    OwnersAreARun(managed, OwnerOf(stored, |managed|));
    assert owners[i] == Named(Owner(managed[i], stored, taken, |managed|));
    OwnerIff(managed[i], stored, taken, |managed|, s);
  }
}

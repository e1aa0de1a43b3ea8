/** Two-sided synchronization with an acknowledgement map.

    A run is atomic and its objects have distinct ids where a lemma says so.  Which pushes fail is an
    arbitrary function of the object id, chosen anew for every run. */
module Sync {
  import opened Options

  // ---- policy -----------------------------------------------------------------------------

  datatype SyncClass = LocalOnly | SyncAllowed | SyncRestricted | SyncForbidden

  datatype SyncObject = SyncObject(id: string, kind: string, version: string, contentHash: string, payload: string)

  /** `secret` stands for the scan of a payload for secret keys and credential formats. */
  datatype Policy = Policy(
    defaults: map<string, SyncClass>,
    overrides: map<string, SyncClass>,
    allowRestrictedDownload: bool,
    secret: string -> bool)
  {
    function Classify(o: SyncObject): SyncClass {
      if secret(o.payload) then SyncForbidden
      else if o.id in overrides then overrides[o.id]
      else if o.kind in defaults then defaults[o.kind]
      else LocalOnly
    }

    predicate CanUpload(o: SyncObject) {
      Classify(o) in {SyncAllowed, SyncRestricted}
    }

    predicate CanDownload(c: SyncClass) {
      c == SyncAllowed || (c == SyncRestricted && allowRestrictedDownload)
    }
  }

  // ---- state, as a whole and id by id ---------------------------------------------------------

  type Remote = map<string, SyncObject>

  /** Version and content hash of the last handshake; kept for the statements only. */
  type Handshakes = map<string, (string, string)>

  datatype System = System(remote: Remote, acks: map<string, string>, shaken: Handshakes)

  function At<V>(m: map<string, V>, id: string): Option<V> {
    if id in m then Some(m[id]) else None
  }

  /** Everything a system holds about one id. */
  datatype Slot = Slot(remote: Option<SyncObject>, ack: Option<string>, shaken: Option<(string, string)>)

  function SlotOf(s: System, id: string): Slot {
    Slot(At(s.remote, id), At(s.acks, id), At(s.shaken, id))
  }

  lemma SameMaps<V>(a: map<string, V>, b: map<string, V>)
    requires forall id :: At(a, id) == At(b, id)
    ensures a == b
  {
    forall id ensures id in a <==> id in b { assert At(a, id) == At(b, id); }
    forall id | id in a ensures a[id] == b[id] { assert At(a, id) == At(b, id); }
  }

  lemma SameSlots(s: System, t: System)
    requires forall id :: SlotOf(s, id) == SlotOf(t, id)
    ensures s == t
  {
    forall id ensures At(s.remote, id) == At(t.remote, id) && At(s.acks, id) == At(t.acks, id) && At(s.shaken, id) == At(t.shaken, id) {
      assert SlotOf(s, id) == SlotOf(t, id);
    }
    SameMaps(s.remote, t.remote);
    SameMaps(s.acks, t.acks);
    SameMaps(s.shaken, t.shaken);
  }

  // ---- what a run does to one id ----------------------------------------------------------------

  datatype SyncState = InSync | Uploaded | Downloaded | Skipped | Conflict | Failed

  /** The decision for a local object against the remote entry listed at the start of the run. */
  function Decide(p: Policy, o: SyncObject, listed: Option<SyncObject>, ack: Option<string>, pushOk: bool): SyncState {
    if p.Classify(o) in {LocalOnly, SyncForbidden} then Skipped
    else if !p.CanUpload(o) then Skipped
    else if listed.None? then (if pushOk then Uploaded else Failed)
    else if listed.value.version == o.version && listed.value.contentHash == o.contentHash then InSync
    else if ack == Some(listed.value.version) then (if pushOk then Uploaded else Failed)
    else Conflict
  }

  function DecisionFor(p: Policy, o: SyncObject, s: System, fails: string -> bool): SyncState {
    Decide(p, o, At(s.remote, o.id), At(s.acks, o.id), !fails(o.id))
  }

  function AfterDecision(o: SyncObject, slot: Slot, d: SyncState): Slot {
    match d
    case Uploaded => Slot(Some(o), Some(o.version), Some((o.version, o.contentHash)))
    case InSync => Slot(slot.remote, Some(o.version), Some((o.version, o.contentHash)))
    case _ => slot
  }

  function SyncSlot(p: Policy, o: SyncObject, slot: Slot, pushOk: bool): Slot {
    AfterDecision(o, slot, Decide(p, o, slot.remote, slot.ack, pushOk))
  }

  /** The download pass: only the acknowledgement moves. */
  predicate Downloads(p: Policy, slot: Slot) {
    slot.remote.Some? && slot.ack != Some(slot.remote.value.version) && p.CanDownload(p.Classify(slot.remote.value))
  }

  function PullSlot(p: Policy, slot: Slot): Slot {
    if Downloads(p, slot) then
      var r := slot.remote.value;
      Slot(slot.remote, Some(r.version), Some((r.version, r.contentHash)))
    else slot
  }

  // ---- a run over all objects ---------------------------------------------------------------------

  function Put(s: System, id: string, slot: Slot): System
    requires slot.remote.Some? || id !in s.remote
    requires slot.ack.Some? || id !in s.acks
    requires slot.shaken.Some? || id !in s.shaken
  {
    System(
      if slot.remote.Some? then s.remote[id := slot.remote.value] else s.remote,
      if slot.ack.Some? then s.acks[id := slot.ack.value] else s.acks,
      if slot.shaken.Some? then s.shaken[id := slot.shaken.value] else s.shaken)
  }

  function SyncOne(p: Policy, o: SyncObject, listed: Remote, s: System, pushOk: bool): System {
    var slot := SlotOf(s, o.id);
    Put(s, o.id, AfterDecision(o, slot, Decide(p, o, At(listed, o.id), slot.ack, pushOk)))
  }

  function SyncAll(p: Policy, objects: seq<SyncObject>, listed: Remote, s: System, fails: string -> bool): System {
    if objects == [] then s
    else
      var front, o := objects[..|objects| - 1], objects[|objects| - 1];
      SyncOne(p, o, listed, SyncAll(p, front, listed, s, fails), !fails(o.id))
  }

  function IdsOf(objects: seq<SyncObject>): set<string> {
    set o | o in objects :: o.id
  }

  /** Acknowledges, among the ids listed at the start, the downloadable entries no local object stands for. */
  function PullNew(p: Policy, localIds: set<string>, ids: set<string>, s: System): System {
    var pulled := set id | id in ids && id !in localIds && id in s.remote && Downloads(p, SlotOf(s, id));
    System(
      s.remote,
      s.acks + map id | id in pulled :: s.remote[id].version,
      s.shaken + map id | id in pulled :: (s.remote[id].version, s.remote[id].contentHash))
  }

  function RunOnce(p: Policy, objects: seq<SyncObject>, s: System, fails: string -> bool): System {
    PullNew(p, IdsOf(objects), s.remote.Keys, SyncAll(p, objects, s.remote, s, fails))
  }

  ghost predicate DistinctIds(objects: seq<SyncObject>) {
    forall i, j :: 0 <= i < j < |objects| ==> objects[i].id != objects[j].id
  }

  lemma SyncOneAt(p: Policy, o: SyncObject, listed: Remote, s: System, pushOk: bool, id: string)
    ensures SlotOf(SyncOne(p, o, listed, s, pushOk), id)
         == if id == o.id then AfterDecision(o, SlotOf(s, id), Decide(p, o, At(listed, id), SlotOf(s, id).ack, pushOk))
            else SlotOf(s, id)
  {
    hide Decide;
  }

  lemma {:induction false} SyncAllElsewhere(p: Policy, objects: seq<SyncObject>, listed: Remote, s: System, fails: string -> bool, id: string)
    requires id !in IdsOf(objects)
    ensures SlotOf(SyncAll(p, objects, listed, s, fails), id) == SlotOf(s, id)
  {
    if objects != [] {
      var front, o := objects[..|objects| - 1], objects[|objects| - 1];
      assert o in objects;
      assert forall x :: x in front ==> x in objects;
      hide SyncOne;
      SyncOneAt(p, o, listed, SyncAll(p, front, listed, s, fails), !fails(o.id), id);
      SyncAllElsewhere(p, front, listed, s, fails, id);
    }
  }

  lemma {:induction false} SyncAllAt(p: Policy, objects: seq<SyncObject>, listed: Remote, s: System, fails: string -> bool, i: nat)
    requires DistinctIds(objects) && i < |objects| && listed == s.remote
    ensures SlotOf(SyncAll(p, objects, listed, s, fails), objects[i].id)
         == SyncSlot(p, objects[i], SlotOf(s, objects[i].id), !fails(objects[i].id))
  {
    hide SyncOne, Decide, AfterDecision;
    var front, o := objects[..|objects| - 1], objects[|objects| - 1];
    SyncOneAt(p, o, listed, SyncAll(p, front, listed, s, fails), !fails(o.id), objects[i].id);
    if i < |front| {
      assert objects[i].id != o.id;
      SyncAllAt(p, front, listed, s, fails, i);
    } else {
      assert o.id !in IdsOf(front);
      SyncAllElsewhere(p, front, listed, s, fails, o.id);
    }
  }

  lemma {:induction false} SyncAllKeeps(p: Policy, objects: seq<SyncObject>, listed: Remote, s: System, fails: string -> bool)
    ensures s.remote.Keys <= SyncAll(p, objects, listed, s, fails).remote.Keys
    ensures SyncAll(p, objects, listed, s, fails).remote.Keys <= s.remote.Keys + IdsOf(objects)
  {
    if objects != [] {
      var front, o := objects[..|objects| - 1], objects[|objects| - 1];
      assert o in objects;
      assert forall x :: x in front ==> x in objects;
      SyncAllKeeps(p, front, listed, s, fails);
    }
  }

  lemma PullNewAt(p: Policy, localIds: set<string>, ids: set<string>, s: System, id: string)
    ensures SlotOf(PullNew(p, localIds, ids, s), id)
         == if id in ids && id !in localIds then PullSlot(p, SlotOf(s, id)) else SlotOf(s, id)
  {
  }

  /** A run acts on every id by itself: on a local object's id by the upload decision, elsewhere by the download rule. */
  lemma RunAt(p: Policy, objects: seq<SyncObject>, s: System, fails: string -> bool, id: string)
    requires DistinctIds(objects)
    ensures (forall i :: 0 <= i < |objects| && objects[i].id == id ==>
        SlotOf(RunOnce(p, objects, s, fails), id) == SyncSlot(p, objects[i], SlotOf(s, id), !fails(id)))
    ensures id !in IdsOf(objects) ==> SlotOf(RunOnce(p, objects, s, fails), id) == PullSlot(p, SlotOf(s, id))
  {
    var t := SyncAll(p, objects, s.remote, s, fails);
    PullNewAt(p, IdsOf(objects), s.remote.Keys, t, id);
    SyncAllKeeps(p, objects, s.remote, s, fails);
    forall i | 0 <= i < |objects| && objects[i].id == id
      ensures SlotOf(RunOnce(p, objects, s, fails), id) == SyncSlot(p, objects[i], SlotOf(s, id), !fails(id))
    {
      SyncAllAt(p, objects, s.remote, s, fails, i);
      assert objects[i] in objects;
    }
    if id !in IdsOf(objects) { SyncAllElsewhere(p, objects, s.remote, s, fails, id); }
  }

  // ---- what a run means for each id, field by field ---------------------------------------------

  /** The class an operator gave the object: its override, or lacking one the default of its kind. */
  predicate Assigned(p: Policy, o: SyncObject, c: SyncClass) {
    || (o.id in p.overrides && p.overrides[o.id] == c)
    || (o.id !in p.overrides && o.kind in p.defaults && p.defaults[o.kind] == c)
  }

  /** No secret leaves, and nothing that no override or default allows to. */
  lemma UploadsIff(p: Policy, o: SyncObject)
    ensures p.CanUpload(o) <==> MayUpload(p, o)
  {
  }

  predicate MayUpload(p: Policy, o: SyncObject) {
    !p.secret(o.payload) && (Assigned(p, o, SyncAllowed) || Assigned(p, o, SyncRestricted))
  }

  /** Downloads are stricter: restricted objects need the operator's consent. */
  lemma DownloadsIff(p: Policy, r: SyncObject)
    ensures p.CanDownload(p.Classify(r)) <==> MayDownload(p, r)
  {
  }

  predicate MayDownload(p: Policy, r: SyncObject) {
    !p.secret(r.payload) && (Assigned(p, r, SyncAllowed) || (Assigned(p, r, SyncRestricted) && p.allowRestrictedDownload))
  }

  /** Remote and local side say different things, and the remote version is not the acknowledged one. */
  predicate Diverged(o: SyncObject, slot: Slot) {
    && slot.remote.Some?
    && (slot.remote.value.version != o.version || slot.remote.value.contentHash != o.contentHash)
    && slot.ack != Some(slot.remote.value.version)
  }

  /** Nothing there yet, or the acknowledged version with something else in it. */
  predicate Newer(o: SyncObject, slot: Slot) {
    || slot.remote.None?
    || ((slot.remote.value.version != o.version || slot.remote.value.contentHash != o.contentHash)
        && slot.ack == Some(slot.remote.value.version))
  }

  /** How an object is treated: `state` is reported, and the slot becomes `slot'`. */
  predicate Treated(p: Policy, o: SyncObject, slot: Slot, pushOk: bool, state: SyncState, slot': Slot) {
    && (state == Skipped <==> !MayUpload(p, o))
    && (state == Conflict <==> MayUpload(p, o) && Diverged(o, slot))
    && (state == Uploaded <==> MayUpload(p, o) && Newer(o, slot) && pushOk)
    && (state == Failed <==> MayUpload(p, o) && Newer(o, slot) && !pushOk)
    && (state == InSync <==> MayUpload(p, o) && !Diverged(o, slot) && !Newer(o, slot))
    && slot'.remote == (if state == Uploaded then Some(o) else slot.remote)
    && slot'.ack == (if state == Uploaded || state == InSync then Some(o.version) else slot.ack)
  }

  lemma DecisionTreats(p: Policy, o: SyncObject, slot: Slot, pushOk: bool)
    ensures Treated(p, o, slot, pushOk, Decide(p, o, slot.remote, slot.ack, pushOk), SyncSlot(p, o, slot, pushOk))
  {
    UploadsIff(p, o);
  }

  /** What a run makes of the ids it has objects for. */
  lemma RunTreats(p: Policy, objects: seq<SyncObject>, s: System, fails: string -> bool, i: nat)
    requires DistinctIds(objects) && i < |objects|
    ensures var o := objects[i];
      Treated(p, o, SlotOf(s, o.id), !fails(o.id), DecisionFor(p, o, s, fails), SlotOf(RunOnce(p, objects, s, fails), o.id))
  {
    hide RunOnce, Decide, Treated, SyncSlot;
    var o := objects[i];
    RunAt(p, objects, s, fails, o.id);
    DecisionTreats(p, o, SlotOf(s, o.id), !fails(o.id));
  }

  /** And of the others: what is there is acknowledged exactly if it may be downloaded, and stays as it is. */
  lemma RunPulls(p: Policy, objects: seq<SyncObject>, s: System, fails: string -> bool, id: string)
    requires DistinctIds(objects) && id !in IdsOf(objects)
    ensures var t := RunOnce(p, objects, s, fails);
      && At(t.remote, id) == At(s.remote, id)
      && At(t.acks, id) == (if id in s.remote && MayDownload(p, s.remote[id]) then Some(s.remote[id].version) else At(s.acks, id))
      && (Downloads(p, SlotOf(s, id)) <==>
          id in s.remote && MayDownload(p, s.remote[id]) && At(s.acks, id) != Some(s.remote[id].version))
  {
    RunAt(p, objects, s, fails, id);
    if id in s.remote { DownloadsIff(p, s.remote[id]); }
    hide RunOnce;
    var t := RunOnce(p, objects, s, fails);
    assert SlotOf(t, id) == PullSlot(p, SlotOf(s, id));
  }

  /** A clean run converges: every object that may be uploaded agrees with its remote entry and is acknowledged, or else
      it was in conflict, and then nothing about it has changed. */
  lemma CleanRunConverges(p: Policy, objects: seq<SyncObject>, s: System, i: nat)
    requires DistinctIds(objects) && i < |objects| && MayUpload(p, objects[i])
    ensures var o := objects[i]; var t := RunOnce(p, objects, s, NoFailure());
      && (o.id in t.remote)
      && (t.remote[o.id].version == o.version && t.remote[o.id].contentHash == o.contentHash <==> !Diverged(o, SlotOf(s, o.id)))
      && (!Diverged(o, SlotOf(s, o.id)) ==> At(t.acks, o.id) == Some(o.version))
      && (o.id !in s.remote ==> t.remote[o.id] == o)
      && (Diverged(o, SlotOf(s, o.id)) ==>
          t.remote[o.id] == s.remote[o.id] && At(t.acks, o.id) == At(s.acks, o.id))
  {
    RunTreats(p, objects, s, NoFailure(), i);
    hide RunOnce, Decide, MayUpload;
    var o, t := objects[i], RunOnce(p, objects, s, NoFailure());
    assert SlotOf(t, o.id).remote == At(t.remote, o.id);
  }

  // ---- idempotent and resumable -----------------------------------------------------------------

  function NoFailure(): string -> bool {
    id => false
  }

  /** A run that had push failures, followed by a clean one, is as good as the clean one alone. */
  lemma CleanRunAbsorbs(p: Policy, objects: seq<SyncObject>, s: System, fails: string -> bool)
    requires DistinctIds(objects)
    ensures RunOnce(p, objects, RunOnce(p, objects, s, fails), NoFailure()) == RunOnce(p, objects, s, NoFailure())
  {
    var t := RunOnce(p, objects, s, fails);
    var a, b := RunOnce(p, objects, t, NoFailure()), RunOnce(p, objects, s, NoFailure());
    hide RunOnce, Decide, AfterDecision;
    forall id ensures SlotOf(a, id) == SlotOf(b, id) {
      RunAt(p, objects, s, fails, id);
      RunAt(p, objects, t, NoFailure(), id);
      RunAt(p, objects, s, NoFailure(), id);
      if id in IdsOf(objects) {
        var o :| o in objects && o.id == id;
        var i :| 0 <= i < |objects| && objects[i] == o;
        SlotAbsorbs(p, o, SlotOf(s, id), !fails(id));
      }
    }
    SameSlots(a, b);
  }

  lemma SlotAbsorbs(p: Policy, o: SyncObject, slot: Slot, pushOk: bool)
    ensures SyncSlot(p, o, SyncSlot(p, o, slot, pushOk), true) == SyncSlot(p, o, slot, true)
  {
  }

  /** A second clean run changes nothing: neither side, no acknowledgement. */
  lemma CleanRunIdempotent(p: Policy, objects: seq<SyncObject>, s: System)
    requires DistinctIds(objects)
    ensures var t := RunOnce(p, objects, s, NoFailure()); RunOnce(p, objects, t, NoFailure()) == t
  {
    CleanRunAbsorbs(p, objects, s, NoFailure());
  }

  /** And it pushes and downloads nothing. */
  lemma SecondRunIsQuiet(p: Policy, objects: seq<SyncObject>, s: System, i: nat, fails: string -> bool)
    requires DistinctIds(objects) && i < |objects|
    ensures var t := RunOnce(p, objects, s, NoFailure());
            Decide(p, objects[i], At(t.remote, objects[i].id), At(t.acks, objects[i].id), !fails(objects[i].id))
              in {Skipped, InSync, Conflict}
    ensures var t := RunOnce(p, objects, s, NoFailure());
            forall id :: id !in IdsOf(objects) ==> !Downloads(p, SlotOf(t, id))
  {
    var t := RunOnce(p, objects, s, NoFailure());
    hide RunOnce;
    RunAt(p, objects, s, NoFailure(), objects[i].id);
    assert SlotOf(t, objects[i].id) == SyncSlot(p, objects[i], SlotOf(s, objects[i].id), true);
    forall id | id !in IdsOf(objects) ensures !Downloads(p, SlotOf(t, id)) {
      RunAt(p, objects, s, NoFailure(), id);
    }
  }

  /** One attempt: the remote is unreachable, or some pushes fail. */
  datatype Try = Down | Up(fails: string -> bool)

  function RunTry(p: Policy, objects: seq<SyncObject>, s: System, t: Try): System {
    match t
    case Down => s
    case Up(fails) => RunOnce(p, objects, s, fails)
  }

  function RunTries(p: Policy, objects: seq<SyncObject>, s: System, tries: seq<Try>): System {
    if tries == [] then s
    else RunTry(p, objects, RunTries(p, objects, s, tries[..|tries| - 1]), tries[|tries| - 1])
  }

  function FirstTries(tries: nat -> Try, n: nat): seq<Try> {
    if n == 0 then [] else FirstTries(tries, n - 1) + [tries(n - 1)]
  }

  lemma NoTries(p: Policy, objects: seq<SyncObject>, s: System, tries: nat -> Try)
    ensures RunTries(p, objects, s, FirstTries(tries, 0)) == s
  {
  }

  lemma NextTry(p: Policy, objects: seq<SyncObject>, s: System, tries: nat -> Try, k: nat)
    ensures var before := RunTries(p, objects, s, FirstTries(tries, k));
      && RunTries(p, objects, s, FirstTries(tries, k + 1)) == RunTry(p, objects, before, tries(k))
      && (TryFails(p, objects, s, tries, k) <==> RunFails(p, objects, before, tries(k)))
  {
    var done := FirstTries(tries, k + 1);
    assert done[..|done| - 1] == FirstTries(tries, k) && done[|done| - 1] == tries(k);
  }

  /** Any number of interrupted attempts followed by one clean run ends where a single clean run ends. */
  lemma {:induction false} Resumable(p: Policy, objects: seq<SyncObject>, s: System, tries: seq<Try>)
    requires DistinctIds(objects)
    ensures RunOnce(p, objects, RunTries(p, objects, s, tries), NoFailure()) == RunOnce(p, objects, s, NoFailure())
  {
    if tries != [] {
      var front := tries[..|tries| - 1];
      Resumable(p, objects, s, front);
      match tries[|tries| - 1]
      case Down =>
      case Up(fails) => CleanRunAbsorbs(p, objects, RunTries(p, objects, s, front), fails);
    }
  }

  // ---- no overwrite of unseen work, over any interleaving ---------------------------------------

  datatype Op =
    | SyncRun(objects: seq<SyncObject>, t: Try)
    | KeepLocal(local: SyncObject, pushOk: bool)
    | KeepRemote(id: string)
    | ForeignWrite(written: SyncObject)

  /** The system, and every (id, version) pair that was ever on the remote. */
  datatype World = World(sys: System, used: set<(string, string)>)

  /** An explicit resolution is still subject to policy. */
  function ResolveLocal(p: Policy, o: SyncObject, s: System, pushOk: bool): System {
    if p.CanUpload(o) && pushOk then Put(s, o.id, AfterDecision(o, SlotOf(s, o.id), Uploaded)) else s
  }

  function ResolveRemote(p: Policy, id: string, s: System): System {
    if id in s.remote && p.CanDownload(p.Classify(s.remote[id])) then
      var r := s.remote[id];
      System(s.remote, s.acks[id := r.version], s.shaken[id := (r.version, r.contentHash)])
    else s
  }

  /** What is on the remote is what the local object says already. */
  predicate Matches(o: SyncObject, r: SyncObject) {
    r.version == o.version && r.contentHash == o.contentHash
  }

  /** A remote version kept on purpose: acknowledged, so that a run takes the local object for the newer one. */
  lemma KeptSlot(p: Policy, o: SyncObject, slot: Slot, pushOk: bool)
    requires slot.remote.Some? && slot.ack == Some(slot.remote.value.version)
    ensures var after := SyncSlot(p, o, slot, pushOk);
      && (after.remote == slot.remote <==> !p.CanUpload(o) || !pushOk || Matches(o, slot.remote.value))
      && (after.remote == slot.remote ==> after.ack == slot.ack)
  {
  }

  lemma ResolvedSlot(p: Policy, id: string, s: System)
    requires id in s.remote && p.CanDownload(p.Classify(s.remote[id]))
    ensures var slot := SlotOf(ResolveRemote(p, id, s), id);
            slot.remote == Some(s.remote[id]) && slot.ack == Some(s.remote[id].version)
  {
  }

  /** A conflict resolved for the remote side: the next run with the local object leaves the remote entry alone exactly
      if it may not upload, cannot, or the two match; else it pushes over the version just kept. */
  lemma KeptRemoteSurvivesIff(p: Policy, objects: seq<SyncObject>, i: nat, s: System, fails: string -> bool)
    requires DistinctIds(objects) && i < |objects|
    requires var id := objects[i].id; id in s.remote && p.CanDownload(p.Classify(s.remote[id]))
    ensures var o := objects[i];
      At(RunOnce(p, objects, ResolveRemote(p, o.id, s), fails).remote, o.id) == Some(s.remote[o.id]) <==>
        !p.CanUpload(o) || fails(o.id) || Matches(o, s.remote[o.id])
  {
    hide RunOnce, ResolveRemote, SyncSlot;
    var o := objects[i];
    var kept := ResolveRemote(p, o.id, s);
    ResolvedSlot(p, o.id, s);
    RunAt(p, objects, kept, fails, o.id);
    KeptSlot(p, o, SlotOf(kept, o.id), !fails(o.id));
  }

  lemma {:induction false} KeptThroughTries(p: Policy, objects: seq<SyncObject>, i: nat, s: System, tries: seq<Try>)
    requires DistinctIds(objects) && i < |objects|
    requires var slot := SlotOf(s, objects[i].id);
      && slot.remote.Some? && slot.ack == Some(slot.remote.value.version)
      && (!p.CanUpload(objects[i]) || Matches(objects[i], slot.remote.value))
    ensures var id := objects[i].id;
      SlotOf(RunTries(p, objects, s, tries), id).remote == SlotOf(s, id).remote
      && SlotOf(RunTries(p, objects, s, tries), id).ack == SlotOf(s, id).ack
  {
    if tries != [] {
      hide RunOnce, SyncSlot;
      var o, front := objects[i], tries[..|tries| - 1];
      KeptThroughTries(p, objects, i, s, front);
      match tries[|tries| - 1]
      case Down =>
      case Up(fails) =>
        var t := RunTries(p, objects, s, front);
        RunAt(p, objects, t, fails, o.id);
        KeptSlot(p, o, SlotOf(t, o.id), !fails(o.id));
    }
  }

  /** A conflict, resolved for the remote side, and pushed over by the run that follows. */
  lemma KeptRemotePushedOver() returns (p: Policy, o: SyncObject, s: System)
    ensures o.id in s.remote && Decide(p, o, At(s.remote, o.id), At(s.acks, o.id), true) == Conflict
    ensures At(RunOnce(p, [o], ResolveRemote(p, o.id, s), NoFailure()).remote, o.id) != Some(s.remote[o.id])
  {
    hide RunOnce;
    p := Policy(map["task" := SyncAllowed], map[], false, _ => false);
    o := SyncObject("x", "task", "2", "h2", "");
    s := System(map["x" := SyncObject("x", "task", "3", "h3", "")], map["x" := "1"], map[]);
    assert p.Classify(s.remote["x"]) == SyncAllowed && p.Classify(o) == SyncAllowed;
    KeptRemoteSurvivesIff(p, [o], 0, s, NoFailure());
  }

  predicate StillThere(p: Policy, objects: seq<SyncObject>, s: System, r: SyncObject, id: string, tries: seq<Try>) {
    At(RunTries(p, objects, s, tries).remote, id) == Some(r)
  }

  /** It survives whatever runs follow with these objects exactly if the local object may not be uploaded or matches. */
  lemma KeptRemoteIsSafeIff(p: Policy, objects: seq<SyncObject>, i: nat, s: System)
    requires DistinctIds(objects) && i < |objects|
    requires var id := objects[i].id; id in s.remote && p.CanDownload(p.Classify(s.remote[id]))
    ensures var o := objects[i];
      (forall tries :: StillThere(p, objects, ResolveRemote(p, o.id, s), s.remote[o.id], o.id, tries))
      <==> !p.CanUpload(o) || Matches(o, s.remote[o.id])
  {
    hide RunOnce, ResolveRemote, Decide, Matches, PullNew, SyncAll, StillThere, RunTries;
    var o := objects[i];
    var kept := ResolveRemote(p, o.id, s);
    ResolvedSlot(p, o.id, s);
    if !p.CanUpload(o) || Matches(o, s.remote[o.id]) {
      forall tries ensures StillThere(p, objects, kept, s.remote[o.id], o.id, tries) {
        KeptThroughTries(p, objects, i, kept, tries);
        ThereIf(p, objects, kept, s.remote[o.id], o.id, tries);
      }
    } else {
      KeptRemoteSurvivesIff(p, objects, i, s, NoFailure());
      OneTry(p, objects, kept, NoFailure());
      ThereIf(p, objects, kept, s.remote[o.id], o.id, [Up(NoFailure())]);
      assert !StillThere(p, objects, kept, s.remote[o.id], o.id, [Up(NoFailure())]);
    }
  }

  lemma ThereIf(p: Policy, objects: seq<SyncObject>, s: System, r: SyncObject, id: string, tries: seq<Try>)
    ensures StillThere(p, objects, s, r, id, tries) <==> SlotOf(RunTries(p, objects, s, tries), id).remote == Some(r)
  {
  }

  lemma OneTry(p: Policy, objects: seq<SyncObject>, s: System, fails: string -> bool)
    ensures RunTries(p, objects, s, [Up(fails)]) == RunOnce(p, objects, s, fails)
  {
    var tries := [Up(fails)];
    assert tries[..0] == [];
    assert RunTries(p, objects, s, tries[..0]) == s;
  }

  function Apply(p: Policy, s: System, op: Op): System {
    match op
    case SyncRun(objects, t) => RunTry(p, objects, s, t)
    case KeepLocal(local, pushOk) => ResolveLocal(p, local, s, pushOk)
    case KeepRemote(id) => ResolveRemote(p, id, s)
    case ForeignWrite(o) => s.(remote := s.remote[o.id := o])
  }

  function Versions(remote: Remote): set<(string, string)> {
    set id | id in remote :: (id, remote[id].version)
  }

  function Next(p: Policy, w: World, op: Op): World {
    var s := Apply(p, w.sys, op);
    World(s, w.used + Versions(s.remote))
  }

  /** Foreign writers never reuse a version of the object; a run gets distinct object ids. */
  ghost predicate LegalOp(w: World, op: Op) {
    match op
    case SyncRun(objects, _) => DistinctIds(objects)
    case ForeignWrite(o) => (o.id, o.version) !in w.used
    case _ => true
  }

  ghost predicate SlotInv(w: World, id: string) {
    var slot := SlotOf(w.sys, id);
    && (slot.remote.Some? ==> slot.remote.value.id == id && (id, slot.remote.value.version) in w.used)
    && (slot.ack.Some? ==> (id, slot.ack.value) in w.used)
    // an acknowledged version names exactly the content of the last handshake
    && (slot.remote.Some? && slot.ack == Some(slot.remote.value.version) ==>
        slot.shaken == Some((slot.remote.value.version, slot.remote.value.contentHash)))
  }

  ghost predicate WorldInv(w: World) {
    forall id :: SlotInv(w, id)
  }

  /** What the manager's own operations can do to an id: nothing, a push, or an acknowledgement of what is there. */
  predicate ManagerStep(before: Slot, after: Slot, id: string) {
    || after == before
    || (after.remote.Some? && after.remote.value.id == id
        && after.ack == Some(after.remote.value.version)
        && after.shaken == Some((after.remote.value.version, after.remote.value.contentHash)))
  }

  lemma RunIsManagerStep(p: Policy, objects: seq<SyncObject>, s: System, fails: string -> bool, id: string)
    requires DistinctIds(objects) && (id in s.remote ==> s.remote[id].id == id)
    ensures ManagerStep(SlotOf(s, id), SlotOf(RunOnce(p, objects, s, fails), id), id)
  {
    RunAt(p, objects, s, fails, id);
    hide RunOnce, SyncSlot, PullSlot;
    if id in IdsOf(objects) {
      var o :| o in objects && o.id == id;
      var i :| 0 <= i < |objects| && objects[i] == o;
      SyncSlotIsStep(p, o, SlotOf(s, id), !fails(id));
    } else {
      PullSlotIsStep(p, SlotOf(s, id), id);
    }
  }

  lemma SyncSlotIsStep(p: Policy, o: SyncObject, slot: Slot, pushOk: bool)
    requires slot.remote.Some? ==> slot.remote.value.id == o.id
    ensures ManagerStep(slot, SyncSlot(p, o, slot, pushOk), o.id)
  {
  }

  lemma PullSlotIsStep(p: Policy, slot: Slot, id: string)
    requires slot.remote.Some? ==> slot.remote.value.id == id
    ensures ManagerStep(slot, PullSlot(p, slot), id)
  {
  }

  lemma OpIsManagerStep(p: Policy, w: World, op: Op, id: string)
    requires LegalOp(w, op) && SlotInv(w, id) && !(op.ForeignWrite? && op.written.id == id)
    ensures ManagerStep(SlotOf(w.sys, id), SlotOf(Apply(p, w.sys, op), id), id)
  {
    match op
    case SyncRun(objects, t) =>
      if t.Up? { RunIsManagerStep(p, objects, w.sys, t.fails, id); }
    case KeepLocal(_, _) =>
    case KeepRemote(_) =>
    case ForeignWrite(_) =>
  }

  lemma OpKeepsInv(p: Policy, w: World, op: Op)
    requires WorldInv(w) && LegalOp(w, op)
    ensures WorldInv(Next(p, w, op))
  {
    var w' := Next(p, w, op);
    forall id ensures SlotInv(w', id) {
      assert SlotInv(w, id);
      assert id in w'.sys.remote ==> (id, w'.sys.remote[id].version) in Versions(w'.sys.remote);
      if !(op.ForeignWrite? && op.written.id == id) {
        OpIsManagerStep(p, w, op, id);
        hide Apply, Versions;
      }
    }
  }

  function RunOps(p: Policy, w: World, ops: seq<Op>): World {
    if ops == [] then w else Next(p, RunOps(p, w, ops[..|ops| - 1]), ops[|ops| - 1])
  }

  ghost predicate LegalOps(p: Policy, w: World, ops: seq<Op>) {
    ops != [] ==>
      LegalOps(p, w, ops[..|ops| - 1]) && LegalOp(RunOps(p, w, ops[..|ops| - 1]), ops[|ops| - 1])
  }

  const START := World(System(map[], map[], map[]), {})

  lemma {:induction false} WorldsAreSound(p: Policy, ops: seq<Op>)
    requires LegalOps(p, START, ops)
    ensures WorldInv(RunOps(p, START, ops))
  {
    if ops != [] {
      WorldsAreSound(p, ops[..|ops| - 1]);
      OpKeepsInv(p, RunOps(p, START, ops[..|ops| - 1]), ops[|ops| - 1]);
    }
  }

  /** In any interleaving, a sync run that replaces a remote entry replaces one whose version it had
      acknowledged, and whose exact version and content were part of this manager's last handshake. */
  lemma OverwritesOnlySeen(p: Policy, ops: seq<Op>, objects: seq<SyncObject>, t: Try, id: string)
    requires LegalOps(p, START, ops) && DistinctIds(objects)
    requires var s := RunOps(p, START, ops).sys;
             id in s.remote && At(RunTry(p, objects, s, t).remote, id) != Some(s.remote[id])
    ensures var s := RunOps(p, START, ops).sys;
            && At(s.acks, id) == Some(s.remote[id].version)
            && At(s.shaken, id) == Some((s.remote[id].version, s.remote[id].contentHash))
  {
    WorldsAreSound(p, ops);
    var w := RunOps(p, START, ops);
    assert SlotInv(w, id);
    hide RunOps, LegalOps, RunOnce, SlotInv;
    RunOverwrites(p, objects, w.sys, t.fails, id);
    assert SlotOf(w.sys, id).ack == Some(w.sys.remote[id].version);
    HandshakeHolds(w, id);
  }

  lemma HandshakeHolds(w: World, id: string)
    requires SlotInv(w, id) && id in w.sys.remote && At(w.sys.acks, id) == Some(w.sys.remote[id].version)
    ensures At(w.sys.shaken, id) == Some((w.sys.remote[id].version, w.sys.remote[id].contentHash))
  {
  }

  /** A run replaces only entries it has acknowledged. */
  lemma RunOverwrites(p: Policy, objects: seq<SyncObject>, s: System, fails: string -> bool, id: string)
    requires DistinctIds(objects) && id in s.remote
    requires At(RunOnce(p, objects, s, fails).remote, id) != Some(s.remote[id])
    ensures At(s.acks, id) == Some(s.remote[id].version)
  {
    RunAt(p, objects, s, fails, id);
    hide RunOnce, Decide, AfterDecision, SyncSlot;
    assert SlotOf(RunOnce(p, objects, s, fails), id).remote != SlotOf(s, id).remote;
    if id in IdsOf(objects) {
      var o :| o in objects && o.id == id;
      var i :| 0 <= i < |objects| && objects[i] == o;
      SlotReplaced(p, o, SlotOf(s, id), !fails(id));
    }
  }

  lemma SlotReplaced(p: Policy, o: SyncObject, slot: Slot, pushOk: bool)
    requires slot.remote.Some? && SyncSlot(p, o, slot, pushOk).remote != slot.remote
    ensures slot.ack == Some(slot.remote.value.version)
  {
  }

  /** Ends the protection of the entry under `id`: another foreign write, or keeping the local side on purpose. */
  predicate Overrules(op: Op, id: string) {
    (op.ForeignWrite? && op.written.id == id) || (op.KeepLocal? && op.local.id == id)
  }

  /** A foreign version survives, untouched, every operation up to the first that acknowledges or overrules it. */
  lemma {:induction false} UnacknowledgedSurvives(p: Policy, w: World, ops: seq<Op>, r: SyncObject)
    requires LegalOps(p, w, ops) && At(w.sys.remote, r.id) == Some(r)
    requires forall n :: 0 <= n < |ops| ==>
      !Overrules(ops[n], r.id) && At(RunOps(p, w, ops[..n]).sys.acks, r.id) != Some(r.version)
    ensures At(RunOps(p, w, ops).sys.remote, r.id) == Some(r)
  {
    if ops != [] {
      hide Overrules, Apply, LegalOp, Next;
      var front, op := ops[..|ops| - 1], ops[|ops| - 1];
      assert !Overrules(ops[|front|], r.id) && ops[..|front|] == front;
      forall n | 0 <= n < |front|
        ensures !Overrules(front[n], r.id) && At(RunOps(p, w, front[..n]).sys.acks, r.id) != Some(r.version)
      {
        assert front[n] == ops[n] && front[..n] == ops[..n];
      }
      UnacknowledgedSurvives(p, w, front, r);
      StepSpares(p, RunOps(p, w, front), op, r);
      assert RunOps(p, w, ops) == Next(p, RunOps(p, w, front), op);
      NextState(p, RunOps(p, w, front), op);
    }
  }

  /** Foreign writers aside, nothing gets to the remote that policy keeps here, secrets least of all. */
  lemma {:induction false} OnlyPermittedLeaves(p: Policy, w: World, ops: seq<Op>, id: string)
    requires forall op :: op in ops ==> DistinctRun(op)
    requires id in RunOps(p, w, ops).sys.remote
    ensures var r := RunOps(p, w, ops).sys.remote[id];
      || At(w.sys.remote, id) == Some(r)
      || ForeignWrite(r) in ops
      || MayUpload(p, r)
  {
    if ops != [] {
      var front, op := ops[..|ops| - 1], ops[|ops| - 1];
      assert op in ops && forall x :: x in front ==> x in ops;
      var s := RunOps(p, w, front).sys;
      NextState(p, RunOps(p, w, front), op);
      OpSends(p, s, op, id);
      if id in s.remote { OnlyPermittedLeaves(p, w, front, id); }
      hide Apply, MayUpload, DistinctRun, Next;
    }
  }

  lemma OpSends(p: Policy, s: System, op: Op, id: string)
    requires DistinctRun(op) && id in Apply(p, s, op).remote
    ensures var r := Apply(p, s, op).remote[id];
      At(s.remote, id) == Some(r) || op == ForeignWrite(r) || MayUpload(p, r)
  {
    match op
    case SyncRun(objects, Up(fails)) =>
      hide RunOnce, MayUpload, MayDownload, Newer, Diverged;
      var t := RunOnce(p, objects, s, fails);
      assert SlotOf(t, id).remote == Some(t.remote[id]);
      if id in IdsOf(objects) {
        var o :| o in objects && o.id == id;
        var i :| 0 <= i < |objects| && objects[i] == o;
        RunTreats(p, objects, s, fails, i);
      } else {
        RunPulls(p, objects, s, fails, id);
      }
    case SyncRun(_, Down) =>
    case KeepLocal(o, _) => UploadsIff(p, o);
    case KeepRemote(_) =>
    case ForeignWrite(_) =>
  }

  lemma NextState(p: Policy, w: World, op: Op)
    ensures Next(p, w, op).sys == Apply(p, w.sys, op)
  {
  }

  lemma StepSpares(p: Policy, w: World, op: Op, r: SyncObject)
    requires LegalOp(w, op) && !Overrules(op, r.id)
    requires At(w.sys.remote, r.id) == Some(r) && At(w.sys.acks, r.id) != Some(r.version)
    ensures At(Apply(p, w.sys, op).remote, r.id) == Some(r)
  {
    if op.SyncRun? && op.t.Up? {
      hide RunOnce;
      if At(RunOnce(p, op.objects, w.sys, op.t.fails).remote, r.id) != Some(r) {
        RunOverwrites(p, op.objects, w.sys, op.t.fails, r.id);
      }
    }
  }

  // ---- when a foreign version is lost -----------------------------------------------------------

  /** Somebody stores something else under the id on purpose: a foreign writer, or a resolution for the local side. */
  predicate Replaces(p: Policy, r: SyncObject, op: Op) {
    match op
    case ForeignWrite(o) => o.id == r.id && o != r
    case KeepLocal(o, pushOk) => o.id == r.id && o != r && p.CanUpload(o) && pushOk
    case _ => false
  }

  /** The operation, meeting `r` on the remote, acknowledges its version: a run that has no object of the id downloads
      it, or finds that its object matches; a resolution takes it. */
  predicate Acknowledges(p: Policy, r: SyncObject, op: Op) {
    match op
    case SyncRun(objects, t) =>
      t.Up? &&
      if r.id in IdsOf(objects) then exists o | o in objects :: o.id == r.id && p.CanUpload(o) && Matches(o, r)
      else p.CanDownload(p.Classify(r))
    case KeepRemote(id) => id == r.id && p.CanDownload(p.Classify(r))
    case KeepLocal(o, pushOk) => o == r && p.CanUpload(o) && pushOk
    case ForeignWrite(_) => false
  }

  /** A run with another object of the id that may be uploaded and whose push gets through. */
  predicate PushesOver(p: Policy, r: SyncObject, op: Op) {
    op.SyncRun? && op.t.Up? && !op.t.fails(r.id) &&
    exists o | o in op.objects :: o.id == r.id && p.CanUpload(o) && !Matches(o, r)
  }

  ghost predicate Lost(p: Policy, r: SyncObject, ops: seq<Op>) {
    || (exists j :: 0 <= j < |ops| && Replaces(p, r, ops[j]))
    || (exists i, j :: 0 <= i < j < |ops| && Acknowledges(p, r, ops[i]) && PushesOver(p, r, ops[j]))
  }

  ghost predicate AckedBy(p: Policy, r: SyncObject, ops: seq<Op>) {
    exists i :: 0 <= i < |ops| && Acknowledges(p, r, ops[i])
  }

  predicate Keeps(s: System, r: SyncObject) {
    At(s.remote, r.id) == Some(r)
  }

  predicate Acked(s: System, r: SyncObject) {
    At(s.acks, r.id) == Some(r.version)
  }

  ghost predicate DistinctRun(op: Op) {
    op.SyncRun? ==> DistinctIds(op.objects)
  }

  lemma SyncSlotOn(p: Policy, o: SyncObject, r: SyncObject, slot: Slot, pushOk: bool)
    requires slot.remote == Some(r)
    ensures var after, acked := SyncSlot(p, o, slot, pushOk), slot.ack == Some(r.version);
      && (after.remote == Some(r) <==> !(acked && pushOk && p.CanUpload(o) && !Matches(o, r)))
      && (after.remote == Some(r) ==>
            (after.ack == Some(r.version) <==> acked || (p.CanUpload(o) && Matches(o, r))))
  {
  }

  /** One run, meeting `r`. */
  lemma RunOn(p: Policy, r: SyncObject, s: System, objects: seq<SyncObject>, fails: string -> bool)
    requires DistinctIds(objects) && Keeps(s, r)
    ensures var op := SyncRun(objects, Up(fails));
      var after := RunOnce(p, objects, s, fails);
      && (Keeps(after, r) <==> !(Acked(s, r) && PushesOver(p, r, op)))
      && (Keeps(after, r) ==> (Acked(after, r) <==> Acked(s, r) || Acknowledges(p, r, op)))
  {
    hide RunOnce, SyncSlot, Matches;
    RunAt(p, objects, s, fails, r.id);
    if r.id in IdsOf(objects) {
      var o :| o in objects && o.id == r.id;
      var i :| 0 <= i < |objects| && objects[i] == o;
      SyncSlotOn(p, o, r, SlotOf(s, r.id), !fails(r.id));
      forall x | x in objects && x.id == r.id ensures x == o {}
    }
  }

  /** One operation, meeting `r`. */
  lemma OpOn(p: Policy, r: SyncObject, s: System, op: Op)
    requires DistinctRun(op) && Keeps(s, r)
    ensures var after := Apply(p, s, op);
      && (Keeps(after, r) <==> !Replaces(p, r, op) && !(Acked(s, r) && PushesOver(p, r, op)))
      && (Keeps(after, r) ==> (Acked(after, r) <==> Acked(s, r) || Acknowledges(p, r, op)))
  {
    if op.SyncRun? && op.t.Up? {
      RunOn(p, r, s, op.objects, op.t.fails);
      hide *;
    }
  }

  lemma LostLater(p: Policy, r: SyncObject, ops: seq<Op>, op: Op)
    ensures Lost(p, r, ops + [op]) <==>
      Lost(p, r, ops) || Replaces(p, r, op) || (AckedBy(p, r, ops) && PushesOver(p, r, op))
    ensures AckedBy(p, r, ops + [op]) <==> AckedBy(p, r, ops) || Acknowledges(p, r, op)
  {
    hide Replaces, Acknowledges, PushesOver;
    var more, n := ops + [op], |ops|;
    assert more[n] == op && forall i :: 0 <= i < n ==> more[i] == ops[i];
  }

  /** As long as nothing loses it, the version is there, and acknowledged exactly if some operation did that. */
  lemma {:induction false} UntilLost(p: Policy, w: World, ops: seq<Op>, r: SyncObject)
    requires Keeps(w.sys, r) && !Acked(w.sys, r) && forall op :: op in ops ==> DistinctRun(op)
    requires !Lost(p, r, ops)
    ensures Keeps(RunOps(p, w, ops).sys, r)
    ensures Acked(RunOps(p, w, ops).sys, r) <==> AckedBy(p, r, ops)
  {
    if ops != [] {
      hide Keeps, Acked, Lost, AckedBy, Apply, DistinctRun, Replaces, PushesOver, Acknowledges;
      var front, op := ops[..|ops| - 1], ops[|ops| - 1];
      assert ops == front + [op] && op in ops;
      assert forall x :: x in front ==> x in ops;
      LostLater(p, r, front, op);
      UntilLost(p, w, front, r);
      OpOn(p, r, RunOps(p, w, front).sys, op);
    } else {
      assert !AckedBy(p, r, ops);
    }
  }

  lemma {:induction false} LostSometime(p: Policy, w: World, ops: seq<Op>, r: SyncObject) returns (n: nat)
    requires Keeps(w.sys, r) && !Acked(w.sys, r) && forall op :: op in ops ==> DistinctRun(op)
    requires Lost(p, r, ops)
    ensures n <= |ops| && !Keeps(RunOps(p, w, ops[..n]).sys, r)
    decreases |ops|
  {
    assert ops != [];
    hide Keeps, Acked, Lost, AckedBy, Apply, DistinctRun, Replaces, PushesOver, Acknowledges;
    var front, op := ops[..|ops| - 1], ops[|ops| - 1];
    assert ops == front + [op] && op in ops;
    assert forall x :: x in front ==> x in ops;
    LostLater(p, r, front, op);
    if Lost(p, r, front) {
      n := LostSometime(p, w, front, r);
      assert front[..n] == ops[..n];
    } else {
      UntilLost(p, w, front, r);
      OpOn(p, r, RunOps(p, w, front).sys, op);
      n := |ops|;
      assert ops[..n] == ops;
    }
  }

  /** An unacknowledged foreign version stays on the remote throughout exactly if nobody replaces it on purpose and no run
      pushes over it after an earlier operation has acknowledged it. */
  lemma ForeignSurvivesIff(p: Policy, w: World, ops: seq<Op>, r: SyncObject)
    requires Keeps(w.sys, r) && !Acked(w.sys, r) && forall op :: op in ops ==> DistinctRun(op)
    ensures (forall n :: 0 <= n <= |ops| ==> Keeps(RunOps(p, w, ops[..n]).sys, r)) <==> !Lost(p, r, ops)
  {
    hide Keeps, Acked, DistinctRun, RunOps;
    if Lost(p, r, ops) {
      var n := LostSometime(p, w, ops, r);
    } else {
      forall n | 0 <= n <= |ops| ensures Keeps(RunOps(p, w, ops[..n]).sys, r) {
        NotLostBefore(p, r, ops, n);
        assert forall x :: x in ops[..n] ==> x in ops;
        UntilLost(p, w, ops[..n], r);
      }
    }
  }

  lemma NotLostBefore(p: Policy, r: SyncObject, ops: seq<Op>, n: nat)
    requires n <= |ops| && !Lost(p, r, ops)
    ensures !Lost(p, r, ops[..n])
  {
    hide Replaces, Acknowledges, PushesOver;
    assert forall i :: 0 <= i < n ==> ops[..n][i] == ops[i];
  }

  /** It is lost without a conflict ever being reported: a run without the object acknowledges it, the next run with the
      object takes that for the newer one and pushes. */
  lemma LostSilently() returns (p: Policy, r: SyncObject, o: SyncObject, ops: seq<Op>)
    ensures o.id == r.id && o != r && LegalOps(p, START, ops)
    ensures ops == [ForeignWrite(r), SyncRun([], Up(NoFailure())), SyncRun([o], Up(NoFailure()))]
    ensures var s := RunOps(p, START, ops[..2]).sys;
            Keeps(s, r) && Decide(p, o, At(s.remote, o.id), At(s.acks, o.id), true) == Uploaded
    ensures At(RunOps(p, START, ops).sys.remote, r.id) == Some(o)
  {
    p := Policy(map["task" := SyncAllowed], map[], false, _ => false);
    r, o := SyncObject("x", "task", "2", "h2", ""), SyncObject("x", "task", "3", "h3", "");
    ops := [ForeignWrite(r), SyncRun([], Up(NoFailure())), SyncRun([o], Up(NoFailure()))];
    assert p.Classify(r) == SyncAllowed && p.Classify(o) == SyncAllowed;
    SilentLoss(p, r, o, START);
    ThreeOps(p, START, ops);
    hide Apply, RunOps, LegalOps;
    assert Next(p, START, ops[0]).sys == Apply(p, START.sys, ops[0]);
  }

  lemma ThreeOps(p: Policy, w: World, ops: seq<Op>)
    requires |ops| == 3
    ensures RunOps(p, w, ops[..2]) == Next(p, Next(p, w, ops[0]), ops[1])
    ensures RunOps(p, w, ops) == Next(p, Next(p, Next(p, w, ops[0]), ops[1]), ops[2])
    ensures LegalOps(p, w, ops) <==>
      LegalOp(w, ops[0]) && LegalOp(Next(p, w, ops[0]), ops[1]) && LegalOp(Next(p, Next(p, w, ops[0]), ops[1]), ops[2])
  {
    hide Next, LegalOp;
    assert ops[..2][..1] == ops[..1] && ops[..1][..0] == [];
    assert RunOps(p, w, ops[..1]) == Next(p, w, ops[0]);
    assert LegalOps(p, w, ops[..1]) <==> LegalOp(w, ops[0]);
    assert LegalOps(p, w, ops[..2]) <==> LegalOps(p, w, ops[..1]) && LegalOp(RunOps(p, w, ops[..1]), ops[1]);
  }

  lemma SilentLoss(p: Policy, r: SyncObject, o: SyncObject, w: World)
    requires o.id == r.id && p.CanDownload(p.Classify(r)) && p.CanUpload(o) && !Matches(o, r)
    requires !Acked(w.sys, r)
    ensures var s1 := Apply(p, w.sys, ForeignWrite(r));
            var s2 := Apply(p, s1, SyncRun([], Up(NoFailure())));
            && Keeps(s2, r) && Decide(p, o, At(s2.remote, o.id), At(s2.acks, o.id), true) == Uploaded
            && At(Apply(p, s2, SyncRun([o], Up(NoFailure()))).remote, r.id) == Some(o)
  {
    hide RunOnce, Matches;
    var s1 := Apply(p, w.sys, ForeignWrite(r));
    assert Keeps(s1, r) && !Acked(s1, r);
    RunOn(p, r, s1, [], NoFailure());
    var s2 := Apply(p, s1, SyncRun([], Up(NoFailure())));
    assert Keeps(s2, r) && Acked(s2, r);
    var objects := [o];
    assert objects[0] == o;
    RunAt(p, objects, s2, NoFailure(), o.id);
    PushedSlot(p, o, SlotOf(s2, o.id), r);
    assert SlotOf(RunOnce(p, objects, s2, NoFailure()), o.id).remote == Some(o);
  }

  lemma PushedSlot(p: Policy, o: SyncObject, slot: Slot, r: SyncObject)
    requires slot.remote == Some(r) && slot.ack == Some(r.version) && p.CanUpload(o) && !Matches(o, r)
    ensures Decide(p, o, slot.remote, slot.ack, true) == Uploaded && SyncSlot(p, o, slot, true).remote == Some(o)
  {
  }

  // ---- the manager ---------------------------------------------------------------------------------

  /** After the objects come, each once, the entries without a local object that are not acknowledged: downloaded
      exactly if that is allowed, else skipped. */
  ghost predicate PullsReported(p: Policy, objects: seq<SyncObject>, s: System, results: seq<(string, SyncState)>) {
    && |objects| <= |results|
    && OncePerId(results[|objects|..])
    && (forall id, state :: (id, state) in results[|objects|..] <==>
          && id in s.remote && id !in IdsOf(objects) && At(s.acks, id) != Some(s.remote[id].version)
          && state == if MayDownload(p, s.remote[id]) then Downloaded else Skipped)
  }

  ghost predicate OncePerId(results: seq<(string, SyncState)>) {
    forall i, j :: 0 <= i < j < |results| ==> results[i].0 != results[j].0
  }

  /** What the download pass reports about one id. */
  function PullState(p: Policy, slot: Slot): Option<SyncState> {
    if slot.remote.None? || slot.ack == Some(slot.remote.value.version) then None
    else if p.CanDownload(p.Classify(slot.remote.value)) then Some(Downloaded)
    else Some(Skipped)
  }

  lemma PullStateMeans(p: Policy, slot: Slot)
    ensures PullState(p, slot) == Some(Downloaded) <==> Downloads(p, slot)
    ensures PullState(p, slot).Some? <==> slot.remote.Some? && slot.ack != Some(slot.remote.value.version)
    ensures PullState(p, slot).Some? ==>
      PullState(p, slot).value == if MayDownload(p, slot.remote.value) then Downloaded else Skipped
  {
    if slot.remote.Some? { DownloadsIff(p, slot.remote.value); }
  }

  /** A run fails as a whole if the remote is down, or if a push failed and nothing got through. */
  ghost predicate RunFails(p: Policy, objects: seq<SyncObject>, s: System, t: Try) {
    || t.Down?
    || (&& (exists o :: o in objects && MayUpload(p, o) && Newer(o, SlotOf(s, o.id)) && t.fails(o.id))
        && (forall o :: o in objects && MayUpload(p, o) ==>
              Diverged(o, SlotOf(s, o.id)) || (Newer(o, SlotOf(s, o.id)) && t.fails(o.id)))
        && (forall id :: id in s.remote && id !in IdsOf(objects) && MayDownload(p, s.remote[id]) ==>
              At(s.acks, id) == Some(s.remote[id].version)))
  }

  /** One result for each object, in order. */
  ghost predicate ReportedUploads(p: Policy, objects: seq<SyncObject>, s: System, fails: string -> bool,
                                  results: seq<(string, SyncState)>)
  {
    |results| == |objects|
    && forall i :: 0 <= i < |objects| ==> results[i] == (objects[i].id, DecisionFor(p, objects[i], s, fails))
  }

  /** Every object has its result, in order, and is treated accordingly. */
  ghost predicate ObjectsTreated(p: Policy, objects: seq<SyncObject>, s: System, fails: string -> bool,
                                 results: seq<(string, SyncState)>, after: System)
  {
    && |objects| <= |results|
    && forall i :: 0 <= i < |objects| ==>
      && results[i].0 == objects[i].id
      && Treated(p, objects[i], SlotOf(s, objects[i].id), !fails(objects[i].id), results[i].1, SlotOf(after, objects[i].id))
  }

  lemma ReportsTreat(p: Policy, objects: seq<SyncObject>, s: System, fails: string -> bool,
                     uploads: seq<(string, SyncState)>, pulled: seq<(string, SyncState)>)
    requires DistinctIds(objects) && ReportedUploads(p, objects, s, fails, uploads)
    ensures ObjectsTreated(p, objects, s, fails, uploads + pulled, RunOnce(p, objects, s, fails))
  {
    hide RunOnce, Treated, DecisionFor;
    forall i | 0 <= i < |objects|
      ensures (uploads + pulled)[i].0 == objects[i].id
      ensures Treated(p, objects[i], SlotOf(s, objects[i].id), !fails(objects[i].id), (uploads + pulled)[i].1,
                      SlotOf(RunOnce(p, objects, s, fails), objects[i].id))
    {
      RunTreats(p, objects, s, fails, i);
    }
  }

  lemma ReportLength(p: Policy, objects: seq<SyncObject>, s: System, fails: string -> bool, uploads: seq<(string, SyncState)>)
    requires ReportedUploads(p, objects, s, fails, uploads)
    ensures |uploads| == |objects|
  {
  }

  ghost predicate PullsListed(p: Policy, localIds: set<string>, s: System, pulled: seq<(string, SyncState)>) {
    forall id, state :: (id, state) in pulled <==>
      id in s.remote && id !in localIds && PullState(p, SlotOf(s, id)) == Some(state)
  }

  lemma PullsMean(p: Policy, objects: seq<SyncObject>, s: System, uploads: seq<(string, SyncState)>,
                  pulled: seq<(string, SyncState)>)
    requires |uploads| == |objects| && OncePerId(pulled) && PullsListed(p, IdsOf(objects), s, pulled)
    ensures PullsReported(p, objects, s, uploads + pulled)
  {
    hide PullState, OncePerId, MayDownload;
    assert (uploads + pulled)[|objects|..] == pulled;
    forall id, state
      ensures (id, state) in pulled <==>
        && id in s.remote && id !in IdsOf(objects) && At(s.acks, id) != Some(s.remote[id].version)
        && state == if MayDownload(p, s.remote[id]) then Downloaded else Skipped
    {
      PullStateMeans(p, SlotOf(s, id));
    }
  }

  predicate Good(r: (string, SyncState)) {
    r.1 in {Uploaded, Downloaded, InSync}
  }

  /** The verdict on the whole report, read off the objects and the state. */
  lemma FailsMeans(p: Policy, objects: seq<SyncObject>, s: System, fails: string -> bool,
                   results: seq<(string, SyncState)>, after: System)
    requires ObjectsTreated(p, objects, s, fails, results, after) && PullsReported(p, objects, s, results)
    ensures (exists r :: r in results && r.1 == Failed) && (forall r :: r in results ==> !Good(r))
       <==> RunFails(p, objects, s, Up(fails))
  {
    SomeFails(p, objects, s, fails, results, after);
    NoneGood(p, objects, s, fails, results, after);
  }

  lemma PullAt(p: Policy, objects: seq<SyncObject>, s: System, results: seq<(string, SyncState)>, k: nat)
    requires PullsReported(p, objects, s, results) && |objects| <= k < |results|
    ensures results[k].1 in {Downloaded, Skipped}
  {
    var r := results[|objects|..][k - |objects|];
    assert (r.0, r.1) in results[|objects|..];
  }

  lemma DownloadShows(p: Policy, objects: seq<SyncObject>, s: System, results: seq<(string, SyncState)>, id: string)
    requires PullsReported(p, objects, s, results)
    requires id in s.remote && id !in IdsOf(objects) && At(s.acks, id) != Some(s.remote[id].version)
    requires MayDownload(p, s.remote[id])
    ensures exists r :: r in results && Good(r)
  {
    var r := (id, Downloaded);
    assert r in results[|objects|..];
    assert r in results && Good(r);
  }

  lemma SomeFails(p: Policy, objects: seq<SyncObject>, s: System, fails: string -> bool,
                  results: seq<(string, SyncState)>, after: System)
    requires ObjectsTreated(p, objects, s, fails, results, after) && PullsReported(p, objects, s, results)
    ensures (exists r :: r in results && r.1 == Failed)
       <==> exists o :: o in objects && MayUpload(p, o) && Newer(o, SlotOf(s, o.id)) && fails(o.id)
  {
    hide MayUpload, Newer, Diverged, OncePerId, MayDownload;
    forall k | |objects| <= k < |results| ensures results[k].1 != Failed { PullAt(p, objects, s, results, k); }
    if r :| r in results && r.1 == Failed {
      var i :| 0 <= i < |results| && results[i] == r;
      assert objects[i] in objects;
    }
    if o :| o in objects && MayUpload(p, o) && Newer(o, SlotOf(s, o.id)) && fails(o.id) {
      var i :| 0 <= i < |objects| && objects[i] == o;
      assert results[i] in results && results[i].1 == Failed;
    }
  }

  lemma NoneGood(p: Policy, objects: seq<SyncObject>, s: System, fails: string -> bool,
                 results: seq<(string, SyncState)>, after: System)
    requires ObjectsTreated(p, objects, s, fails, results, after) && PullsReported(p, objects, s, results)
    ensures (forall r :: r in results ==> !Good(r)) <==>
      && (forall o :: o in objects && MayUpload(p, o) ==>
            Diverged(o, SlotOf(s, o.id)) || (Newer(o, SlotOf(s, o.id)) && fails(o.id)))
      && (forall id :: id in s.remote && id !in IdsOf(objects) && MayDownload(p, s.remote[id]) ==>
            At(s.acks, id) == Some(s.remote[id].version))
  {
    hide MayUpload, Newer, Diverged, OncePerId, MayDownload;
    if forall r :: r in results ==> !Good(r) {
      forall o | o in objects && MayUpload(p, o)
        ensures Diverged(o, SlotOf(s, o.id)) || (Newer(o, SlotOf(s, o.id)) && fails(o.id))
      {
        var i :| 0 <= i < |objects| && objects[i] == o;
        assert !Good(results[i]);
      }
      forall id | id in s.remote && id !in IdsOf(objects) && MayDownload(p, s.remote[id])
        ensures At(s.acks, id) == Some(s.remote[id].version)
      {
        if At(s.acks, id) != Some(s.remote[id].version) {
          DownloadShows(p, objects, s, results, id);
        }
      }
    } else {
      var r :| r in results && Good(r);
      var i :| 0 <= i < |results| && results[i] == r;
      if i >= |objects| {
        assert results[|objects|..][i - |objects|] == r;
        assert (r.0, r.1) in results[|objects|..];
      } else {
        assert objects[i] in objects;
      }
    }
  }

  datatype Report = Report(failed: bool, results: seq<(string, SyncState)>, attempts: nat)

  /** The remote store. */
  class Transport {
    var remote: Remote

    constructor ()
      ensures remote == map[]
    {
      remote := map[];
    }

    /** Stores a copy and acknowledges its version, or loses the connection. */
    method Push(o: SyncObject, ok: bool) returns (version: Option<string>)
      modifies this
      ensures remote == if ok then old(remote)[o.id := o] else old(remote)
      ensures version == if ok then Some(o.version) else None
    {
      if !ok { return None; }
      remote := remote[o.id := o];
      return Some(o.version);
    }
  }

  class SyncManager {
    const policy: Policy
    const transport: Transport
    const maxRetries: nat
    var acknowledged: map<string, string>
    ghost var shaken: Handshakes

    constructor (policy: Policy, transport: Transport, maxRetries: int)
      ensures this.policy == policy && this.transport == transport && acknowledged == map[] && shaken == map[]
      ensures this.maxRetries == if maxRetries < 0 then 0 else maxRetries
    {
      this.policy := policy;
      this.transport := transport;
      this.maxRetries := if maxRetries < 0 then 0 else maxRetries;
      acknowledged, shaken := map[], map[];
    }

    ghost function View(): System
      reads this, transport
    {
      System(transport.remote, acknowledged, shaken)
    }

    method PushObject(o: SyncObject, ok: bool) returns (state: SyncState)
      modifies this, transport
      ensures state == if ok then Uploaded else Failed
      ensures View() == Put(old(View()), o.id, AfterDecision(o, SlotOf(old(View()), o.id), state))
    {
      var version := transport.Push(o, ok);
      if version.None? { return Failed; }
      acknowledged := acknowledged[o.id := version.value];
      shaken := shaken[o.id := (o.version, o.contentHash)];
      return Uploaded;
    }

    method SyncObjectOnce(o: SyncObject, listed: Remote, pushOk: bool) returns (state: SyncState)
      modifies this, transport
      ensures state == Decide(policy, o, At(listed, o.id), At(old(acknowledged), o.id), pushOk)
      ensures View() == SyncOne(policy, o, listed, old(View()), pushOk)
    {
      var c := policy.Classify(o);
      if c in {LocalOnly, SyncForbidden} { return Skipped; }
      if !policy.CanUpload(o) { return Skipped; }
      if o.id !in listed {
        state := PushObject(o, pushOk);
        return;
      }
      var entry := listed[o.id];
      if entry.version == o.version && entry.contentHash == o.contentHash {
        acknowledged := acknowledged[o.id := o.version];
        shaken := shaken[o.id := (o.version, o.contentHash)];
        return InSync;
      }
      if o.id in acknowledged && acknowledged[o.id] == entry.version {
        state := PushObject(o, pushOk);
        return;
      }
      return Conflict;
    }

    method PullOne(id: string, localIds: set<string>, listed: Remote) returns (state: Option<SyncState>)
      requires id in listed && id in transport.remote && (id !in localIds ==> listed[id] == transport.remote[id])
      modifies this
      ensures state == if id in localIds then None else PullState(policy, SlotOf(old(View()), id))
      ensures View() == Pulled(policy, localIds, old(View()), old(View()), id)
    {
      if id in localIds || At(acknowledged, id) == Some(listed[id].version) { return None; }
      var entry := transport.remote[id];
      if !policy.CanDownload(policy.Classify(entry)) { return Some(Skipped); }
      acknowledged := acknowledged[id := listed[id].version];
      shaken := shaken[id := (entry.version, entry.contentHash)];
      return Some(Downloaded);
    }

    /** The download pass over the ids listed at the start of the run. */
    method PullNewObjects(localIds: set<string>, listed: Remote) returns (results: seq<(string, SyncState)>)
      requires listed.Keys <= transport.remote.Keys
      requires forall id :: id in listed && id !in localIds ==> listed[id] == transport.remote[id]
      modifies this
      ensures View() == PullNew(policy, localIds, listed.Keys, old(View()))
      ensures OncePerId(results)
      ensures forall id, state :: (id, state) in results <==>
        id in listed && id !in localIds && PullState(policy, SlotOf(old(View()), id)) == Some(state)
    {
      hide PullNew, Downloads, PullState, Pulled;
      results := [];
      var todo := listed.Keys;
      ghost var seen: set<string>, s := {}, View();
      PullNone(policy, localIds, s);
      while todo != {}
        invariant todo <= listed.Keys && seen == listed.Keys - todo
        invariant View() == PullNew(policy, localIds, seen, s) && transport.remote == s.remote
        invariant OncePerId(results)
        invariant forall id, state :: (id, state) in results <==>
          id in seen && id !in localIds && PullState(policy, SlotOf(s, id)) == Some(state)
        decreases |todo|
      {
        var id :| id in todo;
        PullStep(policy, localIds, seen, s, id);
        PulledSame(policy, localIds, s, View(), id);
        todo, seen := todo - {id}, seen + {id};
        var state := PullOne(id, localIds, listed);
        if state.Some? {
          assert forall r :: r in results ==> (r.0, r.1) == r && r.0 in seen - {id};
          results := results + [(id, state.value)];
        }
      }
      assert seen == listed.Keys;
    }

    /** The upload pass, in the order of the objects. */
    method SyncObjects(objects: seq<SyncObject>, listed: Remote, fails: string -> bool)
      returns (results: seq<(string, SyncState)>)
      requires listed == transport.remote
      modifies this, transport
      ensures View() == SyncAll(policy, objects, listed, old(View()), fails)
      ensures DistinctIds(objects) ==> ReportedUploads(policy, objects, old(View()), fails, results)
    {
      hide SyncAll, SyncOne, Decide;
      ghost var s := View();
      results := [];
      SyncNone(policy, listed, s, fails);
      for i := 0 to |objects|
        invariant View() == SyncAll(policy, objects[..i], listed, s, fails)
        invariant DistinctIds(objects) ==> ReportedUploads(policy, objects[..i], s, fails, results)
      {
        SyncNext(policy, objects, i, listed, s, fails);
        if DistinctIds(objects) { Untouched(policy, objects, i, listed, s, fails); }
        var state := SyncObjectOnce(objects[i], listed, !fails(objects[i].id));
        results := results + [(objects[i].id, state)];
      }
      assert objects[..|objects|] == objects;
    }

    /** One run: decide for every local object against the listing taken first, then download. */
    method SyncNow(objects: seq<SyncObject>, t: Try) returns (report: Report)
      modifies this, transport
      ensures View() == RunTry(policy, objects, old(View()), t)
      ensures report.failed <==>
        t.Down? || ((exists r :: r in report.results && r.1 == Failed) && (forall r :: r in report.results ==> !Good(r)))
      ensures DistinctIds(objects) ==> (report.failed <==> RunFails(policy, objects, old(View()), t))
      ensures t.Down? ==> |report.results| == |objects|
      ensures t.Down? ==> forall i :: 0 <= i < |objects| ==> report.results[i] == (objects[i].id, Failed)
      ensures t.Up? && DistinctIds(objects) ==>
        && ObjectsTreated(policy, objects, old(View()), t.fails, report.results, View())
        && PullsReported(policy, objects, old(View()), report.results)
    {
      if t.Down? {
        return Report(true, seq(|objects|, i requires 0 <= i < |objects| => (objects[i].id, Failed)), 1);
      }
      hide SyncAll, PullNew, Downloads, ReportedUploads, ObjectsTreated, PullsReported, PullState, OncePerId, MayUpload,
           MayDownload, Diverged, Newer, Good;
      var listed := transport.remote;
      ghost var s := View();
      var uploads := SyncObjects(objects, listed, t.fails);
      var localIds := IdsOf(objects);
      ListedStay(policy, objects, listed, s, t.fails);
      var pulled := PullNewObjects(localIds, listed);
      var results: seq<(string, SyncState)> := uploads + pulled;
      if DistinctIds(objects) {
        ReportLength(policy, objects, s, t.fails, uploads);
        ReportsTreat(policy, objects, s, t.fails, uploads, pulled);
        PullsMean(policy, objects, s, uploads, pulled);
        FailsMeans(policy, objects, s, t.fails, results, View());
      }
      var anyFailed := exists r: (string, SyncState) | r in results :: r.1 == Failed;
      var anyGood := exists r: (string, SyncState) | r in results :: Good(r);
      return Report(anyFailed && !anyGood, results, 1);
    }

    /** Retries failed runs, at most `maxRetries` more; the outcome is that of as many runs in a row. */
    method RetrySync(objects: seq<SyncObject>, tries: nat -> Try) returns (report: Report)
      modifies this, transport
      ensures 1 <= report.attempts <= maxRetries + 1
      ensures report.failed ==> report.attempts == maxRetries + 1
      ensures View() == RunTries(policy, objects, old(View()), FirstTries(tries, report.attempts))
      // it goes on exactly as long as runs fail
      ensures DistinctIds(objects) ==>
        forall k :: 0 <= k < report.attempts - 1 ==> TryFails(policy, objects, old(View()), tries, k)
      ensures DistinctIds(objects) ==> (report.failed <==> TryFails(policy, objects, old(View()), tries, report.attempts - 1))
    {
      hide RunTry, RunTries, TryFails, RunFails, FirstTries, ObjectsTreated, PullsReported;
      var attempts := 0;
      ghost var s := View();
      NoTries(policy, objects, s, tries);
      while true
        invariant 0 <= attempts <= maxRetries
        invariant View() == RunTries(policy, objects, s, FirstTries(tries, attempts))
        invariant DistinctIds(objects) ==> forall k :: 0 <= k < attempts ==> TryFails(policy, objects, s, tries, k)
        decreases maxRetries - attempts
      {
        NextTry(policy, objects, s, tries, attempts);
        report := SyncNow(objects, tries(attempts));
        attempts := attempts + 1;
        if !report.failed || attempts > maxRetries {
          report := report.(attempts := attempts);
          return;
        }
      }
    }

    /** Resolves a conflict on purpose, for the local or the remote side. */
    method ResolveConflict(o: SyncObject, keepLocal: bool, reachable: bool, pushOk: bool) returns (state: SyncState)
      modifies this, transport
      ensures !reachable ==> state == Failed && View() == old(View())
      ensures reachable && keepLocal ==>
        && View() == ResolveLocal(policy, o, old(View()), pushOk)
        && state == (if !MayUpload(policy, o) then Skipped else if pushOk then Uploaded else Failed)
        && transport.remote == (if state == Uploaded then old(transport.remote)[o.id := o] else old(transport.remote))
        && acknowledged == (if state == Uploaded then old(acknowledged)[o.id := o.version] else old(acknowledged))
      ensures reachable && !keepLocal ==>
        && View() == ResolveRemote(policy, o.id, old(View()))
        && (state == Failed <==> o.id !in transport.remote)
        && (state == Downloaded <==> o.id in transport.remote && MayDownload(policy, transport.remote[o.id]))
        && state in {Failed, Downloaded, Skipped}
        && transport.remote == old(transport.remote)
        && acknowledged == (if state == Downloaded then old(acknowledged)[o.id := transport.remote[o.id].version]
                            else old(acknowledged))
    {
      UploadsIff(policy, o);
      if !reachable { return Failed; }
      if keepLocal {
        if !policy.CanUpload(o) { return Skipped; }
        state := PushObject(o, pushOk);
        return;
      }
      if o.id !in transport.remote { return Failed; }
      var entry := transport.remote[o.id];
      if !policy.CanDownload(policy.Classify(entry)) { return Skipped; }
      acknowledged := acknowledged[o.id := entry.version];
      shaken := shaken[o.id := (entry.version, entry.contentHash)];
      return Downloaded;
    }
  }

  /** The `k`-th attempt would report a failure. */
  ghost predicate TryFails(p: Policy, objects: seq<SyncObject>, s: System, tries: nat -> Try, k: nat) {
    RunFails(p, objects, RunTries(p, objects, s, FirstTries(tries, k)), tries(k))
  }

  lemma SyncNone(p: Policy, listed: Remote, s: System, fails: string -> bool)
    ensures SyncAll(p, [], listed, s, fails) == s
  {
  }

  lemma SyncNext(p: Policy, objects: seq<SyncObject>, i: nat, listed: Remote, s: System, fails: string -> bool)
    requires i < |objects|
    ensures SyncAll(p, objects[..i + 1], listed, s, fails)
         == SyncOne(p, objects[i], listed, SyncAll(p, objects[..i], listed, s, fails), !fails(objects[i].id))
  {
    assert objects[..i + 1][..i] == objects[..i];
  }

  lemma Untouched(p: Policy, objects: seq<SyncObject>, i: nat, listed: Remote, s: System, fails: string -> bool)
    requires DistinctIds(objects) && i < |objects|
    ensures At(SyncAll(p, objects[..i], listed, s, fails).acks, objects[i].id) == At(s.acks, objects[i].id)
  {
    SyncAllElsewhere(p, objects[..i], listed, s, fails, objects[i].id);
    assert SlotOf(SyncAll(p, objects[..i], listed, s, fails), objects[i].id).ack == SlotOf(s, objects[i].id).ack;
  }

  lemma ListedStay(p: Policy, objects: seq<SyncObject>, listed: Remote, s: System, fails: string -> bool)
    requires listed == s.remote
    ensures var t := SyncAll(p, objects, listed, s, fails);
            && listed.Keys <= t.remote.Keys
            && (forall id :: id in listed && id !in IdsOf(objects) ==> t.remote[id] == listed[id])
            && (forall id :: id !in IdsOf(objects) ==> SlotOf(t, id) == SlotOf(s, id))
  {
    var t := SyncAll(p, objects, listed, s, fails);
    SyncAllKeeps(p, objects, listed, s, fails);
    forall id | id !in IdsOf(objects) ensures SlotOf(t, id) == SlotOf(s, id) {
      SyncAllElsewhere(p, objects, listed, s, fails, id);
    }
    forall id | id in listed && id !in IdsOf(objects) ensures t.remote[id] == listed[id] {
      assert SlotOf(t, id).remote == SlotOf(s, id).remote;
    }
  }

  lemma PullNone(p: Policy, localIds: set<string>, s: System)
    ensures PullNew(p, localIds, {}, s) == s
  {
    forall id ensures SlotOf(PullNew(p, localIds, {}, s), id) == SlotOf(s, id) { PullNewAt(p, localIds, {}, s, id); }
    SameSlots(PullNew(p, localIds, {}, s), s);
  }

  /** What the pass does to one id more. */
  function Pulled(p: Policy, localIds: set<string>, s: System, t: System, id: string): System {
    if id !in localIds && Downloads(p, SlotOf(s, id)) then
      System(t.remote, t.acks[id := s.remote[id].version],
             t.shaken[id := (s.remote[id].version, s.remote[id].contentHash)])
    else t
  }

  lemma PulledSame(p: Policy, localIds: set<string>, s: System, t: System, id: string)
    requires t.remote == s.remote && SlotOf(t, id) == SlotOf(s, id)
    ensures Pulled(p, localIds, t, t, id) == Pulled(p, localIds, s, t, id)
    ensures Pulled(p, localIds, s, t, id).remote == t.remote
  {
  }

  lemma PulledAt(p: Policy, localIds: set<string>, s: System, t: System, id: string, x: string)
    requires t.remote == s.remote && SlotOf(t, id) == SlotOf(s, id)
    ensures SlotOf(Pulled(p, localIds, s, t, id), x)
         == if x == id && id !in localIds then PullSlot(p, SlotOf(s, id)) else SlotOf(t, x)
  {
  }

  lemma PullStep(p: Policy, localIds: set<string>, seen: set<string>, s: System, id: string)
    requires id !in seen
    ensures
      var t := PullNew(p, localIds, seen, s);
      && SlotOf(t, id) == SlotOf(s, id)
      && PullNew(p, localIds, seen + {id}, s) == Pulled(p, localIds, s, t, id)
  {
    var t := PullNew(p, localIds, seen, s);
    PullNewAt(p, localIds, seen, s, id);
    assert t.remote == s.remote;
    hide PullNew, Downloads, Pulled, PullSlot, SlotOf;
    forall x ensures SlotOf(PullNew(p, localIds, seen + {id}, s), x) == SlotOf(Pulled(p, localIds, s, t, id), x) {
      PullNewAt(p, localIds, seen + {id}, s, x);
      PullNewAt(p, localIds, seen, s, x);
      PulledAt(p, localIds, s, t, id, x);
    }
    SameSlots(PullNew(p, localIds, seen + {id}, s), Pulled(p, localIds, s, t, id));
  }
}

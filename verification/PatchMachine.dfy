/**
 Storing the machine: two merge patches against the snapshot taken when the scope was created. The main
 endpoint ignores the status half of a patch, the status endpoint the other half, and each answers with
 the stored object, which overwrites the local one.
 */
module PatchMachine {
  import opened Wrappers
  import opened JsonPatch

  const PROVIDER_STATUS := "providerStatus"

  /** A machine as the API server keeps it: metadata and spec, and the status subresource. */
  datatype ApiObject = ApiObject(main: Json, status: Json)

  predicate IsObject(o: ApiObject) { o.main.Obj? && o.status.Obj? }

  predicate NoNulls(o: ApiObject) { NullFree(o.main) && NullFree(o.status) }

  function DiffObject(a: ApiObject, b: ApiObject): ApiObject {
    ApiObject(Diff(a.main, b.main), Diff(a.status, b.status))
  }

  /** A patch call: to the main or the status endpoint, what was sent, and whether it was answered. */
  datatype ServerCall = ServerCall(toStatus: bool, patch: ApiObject, answered: bool)

  /** The API server; a call can fail without effect. It remembers its calls. */
  class ApiServer {
    var stored: ApiObject
    ghost var calls: seq<ServerCall>

    constructor (o: ApiObject)
      ensures stored == o && calls == []
    {
      stored, calls := o, [];
    }

    method Patch(patch: ApiObject) returns (answer: Option<ApiObject>)
      modifies this
      ensures answer.None? ==> stored == old(stored)
      ensures answer.Some? ==>
                stored == old(stored).(main := MergePatch(old(stored).main, patch.main)) && answer.value == stored
      ensures calls == old(calls) + [ServerCall(false, patch, answer.Some?)]
    {
      var fails: bool := *;
      calls := calls + [ServerCall(false, patch, !fails)];
      if fails {
        return None;
      }
      stored := stored.(main := MergePatch(stored.main, patch.main));
      answer := Some(stored);
    }

    method PatchStatus(patch: ApiObject) returns (answer: Option<ApiObject>)
      modifies this
      ensures answer.None? ==> stored == old(stored)
      ensures answer.Some? ==>
                stored == old(stored).(status := MergePatch(old(stored).status, patch.status)) && answer.value == stored
      ensures calls == old(calls) + [ServerCall(true, patch, answer.Some?)]
    {
      var fails: bool := *;
      calls := calls + [ServerCall(true, patch, !fails)];
      if fails {
        return None;
      }
      stored := stored.(status := MergePatch(stored.status, patch.status));
      answer := Some(stored);
    }
  }

  /** The provider status is kept decoded, and encoded into the status before patching. */
  function WithProviderStatus(status: Json, providerStatus: Json): Json {
    Obj((if status.Obj? then status.fields else map[])[PROVIDER_STATUS := providerStatus])
  }

  /** What patchMachine leaves on the server when both patches go through. */
  function AfterPatch(stored: ApiObject, snapshot: ApiObject, local: ApiObject, providerStatus: Json): ApiObject {
    var sent := local.(status := WithProviderStatus(local.status, providerStatus));
    ApiObject(MergePatch(stored.main, Diff(snapshot.main, sent.main)),
              MergePatch(stored.status, Diff(snapshot.status, sent.status)))
  }

  /** The scope of one reconcile, as far as patching goes. */
  class Scope {
    const server: ApiServer
    const snapshot: ApiObject
    var machine: ApiObject
    var providerStatus: Json

    constructor (server: ApiServer, machine: ApiObject, providerStatus: Json)
      ensures this.server == server && snapshot == machine && this.machine == machine
      ensures this.providerStatus == providerStatus
    {
      this.server, this.snapshot, this.machine, this.providerStatus := server, machine, machine, providerStatus;
    }

    /**
     patchMachine. The main patch is always sent, the status patch exactly when the main one was answered, and
     it succeeds exactly when both were. A failed main patch stores nothing, a failed status patch leaves the
     main half stored only.
     */
    method PatchMachine() returns (ok: bool, ghost sent: seq<ServerCall>)
      modifies this, server
      ensures providerStatus == old(providerStatus)
      ensures server.calls == old(server.calls) + sent
      ensures 1 <= |sent| <= 2 && !sent[0].toStatus && (|sent| == 2 <==> sent[0].answered)
      ensures sent[0].patch.main == Diff(snapshot.main, old(machine).main)
      ensures |sent| == 2 ==>
                sent[1].toStatus &&
                sent[1].patch.status ==
                  Diff(snapshot.status, WithProviderStatus(old(machine).status, old(providerStatus)))
      ensures ok <==> |sent| == 2 && sent[1].answered
      ensures var done := AfterPatch(old(server.stored), snapshot, old(machine), old(providerStatus));
              && (ok ==> server.stored == done && machine == done)
              && (|sent| == 2 && !sent[1].answered ==> server.stored == old(server.stored).(main := done.main))
              && (!sent[0].answered ==> server.stored == old(server.stored))
    {
      machine := machine.(status := WithProviderStatus(machine.status, providerStatus));
      var statusCopy := machine.status;
      var patch := DiffObject(snapshot, machine);
      var answer := server.Patch(patch);
      sent := [ServerCall(false, patch, answer.Some?)];
      if answer.None? {
        return false, sent;
      }
      machine := answer.value;
      machine := machine.(status := statusCopy);
      patch := DiffObject(snapshot, machine);
      answer := server.PatchStatus(patch);
      sent := sent + [ServerCall(true, patch, answer.Some?)];
      if answer.None? {
        return false, sent;
      }
      machine := answer.value;
      ok := true;
    }
  }

  /**
   The two patches together lose nothing, in either half. With the object as stored now, the snapshot,
   and the local object with its provider status: a path that the actuator did not touch keeps the value
   stored in the meantime, and a path it changed or removed ends up as the actuator left it.
   */
  lemma TwoPhasePatchLosesNothing(
    stored: ApiObject, snapshot: ApiObject, local: ApiObject, providerStatus: Json, path: seq<string>
  )
    requires IsObject(stored) && IsObject(snapshot) && IsObject(local)
    ensures var after := AfterPatch(stored, snapshot, local, providerStatus);
            var status := Obj(local.status.fields["providerStatus" := providerStatus]);
            && (Untouched(Some(snapshot.main), Some(local.main), path) ==>
                  At(Some(after.main), path) == At(Some(stored.main), path))
            && (Untouched(Some(snapshot.status), Some(status), path) ==>
                  At(Some(after.status), path) == At(Some(stored.status), path))
            && (At(Some(snapshot.main), path) != At(Some(local.main), path) && Atomic(At(Some(local.main), path)) ==>
                  At(Some(after.main), path) == At(Some(local.main), path))
            && (At(Some(snapshot.status), path) != At(Some(status), path) && Atomic(At(Some(status), path)) ==>
                  At(Some(after.status), path) == At(Some(status), path))
  {
    PatchLosesNothing(stored.main, snapshot.main, local.main, path);
    PatchLosesNothing(stored.status, snapshot.status, WithProviderStatus(local.status, providerStatus), path);
  }

  /**
   Without concurrent changes, the server ends with the actuator's object exactly when a merge patch can
   tell the difference (no null field added or changed).
   */
  lemma AloneStoresAll(snapshot: ApiObject, local: ApiObject, providerStatus: Json)
    ensures var sent := local.(status := WithProviderStatus(local.status, providerStatus));
            AfterPatch(snapshot, snapshot, local, providerStatus) == sent <==>
              Expressible(snapshot.main, sent.main) && Expressible(snapshot.status, sent.status)
  {
    RoundTripIff(snapshot.main, local.main);
    RoundTripIff(snapshot.status, WithProviderStatus(local.status, providerStatus));
  }

  /** Once stored, patching the result again changes nothing, whatever others had changed before. */
  lemma PatchAgain(stored: ApiObject, snapshot: ApiObject, local: ApiObject, providerStatus: Json)
    requires IsObject(stored) && IsObject(snapshot) && IsObject(local) && NoNulls(stored)
    ensures var once := AfterPatch(stored, snapshot, local, providerStatus);
            AfterPatch(once, snapshot, once, providerStatus) == once
  {
    var once := AfterPatch(stored, snapshot, local, providerStatus);
    MergeIsNullFree(stored.main, Diff(snapshot.main, local.main));
    MergeIsAbsorbed(snapshot.main, once.main);
    var status := WithProviderStatus(local.status, providerStatus);
    MergeIsNullFree(stored.status, Diff(snapshot.status, status));
    StatusAgain(stored.status, snapshot.status, status, providerStatus);
  }

  lemma StatusAgain(stored: Json, snapshot: Json, status: Json, providerStatus: Json)
    requires stored.Obj? && snapshot.Obj? && status.Obj?
    requires Child(Some(status), PROVIDER_STATUS) == Some(providerStatus)
    requires NullFree(MergePatch(stored, Diff(snapshot, status)))
    ensures var once := MergePatch(stored, Diff(snapshot, status));
            MergePatch(once, Diff(snapshot, WithProviderStatus(once, providerStatus))) == once
  {
    var once := MergePatch(stored, Diff(snapshot, status));
    var again := WithProviderStatus(once, providerStatus);
    var twice := MergePatch(once, Diff(snapshot, again));
    MergeIsApplied(once, snapshot, again);
    forall k
      ensures Child(Some(twice), k) == Child(Some(once), k)
    {
      if again == snapshot {
      } else {
        PatchByField(Some(once), Some(snapshot), again, k);
        if k != PROVIDER_STATUS {
          AbsorbedField(Child(Some(snapshot), k), Child(Some(once), k));
        } else {
          MergeIsApplied(stored, snapshot, status);
          if status != snapshot {
            PatchByField(Some(stored), Some(snapshot), status, k);
            AppliedTwice(Child(Some(stored), k), PatchFor(Child(Some(snapshot), k), Some(providerStatus)));
          }
        }
      }
    }
    SameChildren(twice, once);
  }

  lemma AbsorbedField(a: Option<Json>, b: Option<Json>)
    requires b.Some? ==> NullFree(b.value) && b.value != Null
    ensures Applied(b, PatchFor(a, b)) == b
  {
    if b.Some? {
      if a.Some? {
        MergeIsAbsorbed(a.value, b.value);
      } else {
        MergeWhole(b.value, b.value);
      }
    }
  }

  lemma AppliedTwice(target: Option<Json>, patch: Option<Json>)
    ensures Applied(Applied(target, patch), patch) == Applied(target, patch)
  {
    if patch.Some? {
      MergeIsIdempotent(if target.Some? then target.value else Null, patch.value);
    }
  }

  lemma SameChildren(a: Json, b: Json)
    requires a.Obj? && b.Obj? && forall k :: Child(Some(a), k) == Child(Some(b), k)
    ensures a == b
  {
    assert forall k :: k in a.fields <==> k in b.fields by {
      assert forall k :: k in a.fields <==> Child(Some(a), k).Some?;
      assert forall k :: k in b.fields <==> Child(Some(b), k).Some?;
    }
    assert forall k :: k in a.fields ==> Child(Some(a), k) == Some(a.fields[k]) && Child(Some(b), k) == Some(b.fields[k]);
    assert a.fields == b.fields;
  }
}

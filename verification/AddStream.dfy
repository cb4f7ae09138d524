/** KeeperGRPCService.Add: receive the whole client stream, then store request by request. */
module AddStream {
  import opened Common
  import opened Vault
  import opened Keeper

  /** Metadata is nil, of an unknown type, or converted; the payload is nil, without data, or with. */
  datatype AddRequest = AddRequest(metadata: Option<Option<Metadata>>, payload: Option<Option<Bytes>>)

  datatype Ending = EndOfStream | Cancelled | ReceiveError

  /** SendError is whatever a failed SendAndClose reports; the handler passes it on. */
  datatype Code = OK | Unauthenticated | Canceled | InvalidArgument | Internal | SendError

  predicate WellFormed(req: AddRequest) {
    req.metadata.Some? && req.payload.Some? && req.metadata.value.Some? && req.payload.value.Some?
  }

  /** The request passes the handler, AddSealed's checks, and both stores. */
  predicate Goes(user: UserId, req: AddRequest, env: AddEnv) {
    && WellFormed(req)
    && Acceptable(user, req.metadata.value, req.payload.value.value)
    && env.locator.Some? && env.id.Some?
  }

  /** The first request that does not go, or the number of requests. */
  function FirstStop(user: UserId, reqs: seq<AddRequest>, env: nat -> AddEnv, i: nat): (k: nat)
    requires i <= |reqs|
    ensures i <= k <= |reqs|
    ensures forall j :: i <= j < k ==> Goes(user, reqs[j], env(j))
    ensures k < |reqs| ==> !Goes(user, reqs[k], env(k))
    decreases |reqs| - i
  {
    if i == |reqs| || !Goes(user, reqs[i], env(i)) then i else FirstStop(user, reqs, env, i + 1)
  }

  function EntryOf(user: UserId, req: AddRequest, id: DataId): Entry
    requires WellFormed(req)
  {
    Entry(req.metadata.value.value.(userId := user, id := id), req.payload.value.value)
  }

  /** The abstract map with the entries of the first k requests, in order. */
  function WithFirst(view: map<DataId, Entry>, user: UserId, reqs: seq<AddRequest>, env: nat -> AddEnv, k: nat)
    : map<DataId, Entry>
    requires k <= |reqs| && forall j :: 0 <= j < k ==> Goes(user, reqs[j], env(j))
  {
    if k == 0 then view
    else
      assert Goes(user, reqs[k - 1], env(k - 1));
      WithFirst(view, user, reqs, env, k - 1)[env(k - 1).id.value := EntryOf(user, reqs[k - 1], env(k - 1).id.value)]
  }

  /** From request i on, the stores answer with locators and ids that are not in use, all different. */
  ghost predicate FreshFrom(st: Stores, env: nat -> AddEnv, i: nat) {
    && (forall j :: j >= i ==> FreshFor(st, env(j)))
    && (forall j, k :: i <= j < k && env(j).locator.Some? && env(k).locator.Some? ==> env(j).locator != env(k).locator)
    && (forall j, k :: i <= j < k && env(j).id.Some? && env(k).id.Some? ==> env(j).id != env(k).id)
  }

  lemma FreshNext(st: Stores, meta: Metadata, sealed: Bytes, env: nat -> AddEnv, i: nat)
    requires FreshFrom(st, env, i)
    ensures FreshFor(st, env(i)) && FreshFrom(st, env, i + 1)
    ensures FreshFrom(AfterAdd(st, meta, sealed, env(i)), env, i + 1)
  {
  }

  /** The ids to come are not in use and all different. */
  ghost predicate FreshIds(m: map<DataId, Entry>, env: nat -> AddEnv) {
    && (forall j: nat :: env(j).id.Some? ==> env(j).id.value !in m)
    && (forall j, k :: 0 <= j < k && env(j).id.Some? && env(k).id.Some? ==> env(j).id != env(k).id)
  }

  lemma IdsAreFresh(st: Stores, env: nat -> AddEnv)
    requires FreshFrom(st, env, 0)
    ensures FreshIds(View(st), env)
  {
  }

  /** An id that a later request will get is not in use yet. */
  lemma {:induction false} LaterIdIsNew(m: map<DataId, Entry>, user: UserId, reqs: seq<AddRequest>,
                                       env: nat -> AddEnv, k: nat, later: nat)
    requires k <= |reqs| && (forall j :: 0 <= j < k ==> Goes(user, reqs[j], env(j))) && FreshIds(m, env)
    requires k <= later && env(later).id.Some?
    ensures env(later).id.value !in WithFirst(m, user, reqs, env, k)
  {
    if k > 0 {
      LaterIdIsNew(m, user, reqs, env, k - 1, later);
      assert Goes(user, reqs[k - 1], env(k - 1));
    }
  }

  /** What WithFirst holds: each of the k requests under its own id, and the rest as before. */
  lemma {:induction false} StoredExactly(m: map<DataId, Entry>, user: UserId, reqs: seq<AddRequest>,
                                        env: nat -> AddEnv, k: nat)
    requires k <= |reqs| && (forall j :: 0 <= j < k ==> Goes(user, reqs[j], env(j))) && FreshIds(m, env)
    ensures Extended(m, WithFirst(m, user, reqs, env, k), user, reqs, env, k)
  {
    if k > 0 {
      var before := WithFirst(m, user, reqs, env, k - 1);
      StoredExactly(m, user, reqs, env, k - 1);
      assert Goes(user, reqs[k - 1], env(k - 1));
      LaterIdIsNew(m, user, reqs, env, k - 1, k - 1);
      AddOne(m, before, user, reqs, env, k - 1);
      assert WithFirst(m, user, reqs, env, k)
             == before[env(k - 1).id.value := EntryOf(user, reqs[k - 1], env(k - 1).id.value)];
    }
  }

  /** after is before with the first k requests, each under its own id, and nothing else. */
  ghost predicate Extended(before: map<DataId, Entry>, after: map<DataId, Entry>, user: UserId,
                           reqs: seq<AddRequest>, env: nat -> AddEnv, k: nat)
    requires k <= |reqs|
  {
    && |after| == |before| + k
    && (forall j :: 0 <= j < k ==> HasRequest(after, user, reqs[j], env(j)))
    && (forall id :: id in before ==> id in after && after[id] == before[id])
  }

  lemma AddOne(m: map<DataId, Entry>, before: map<DataId, Entry>, user: UserId,
               reqs: seq<AddRequest>, env: nat -> AddEnv, k: nat)
    requires k < |reqs| && Extended(m, before, user, reqs, env, k)
    requires Goes(user, reqs[k], env(k)) && env(k).id.value !in before
    ensures Extended(m, before[env(k).id.value := EntryOf(user, reqs[k], env(k).id.value)], user, reqs, env, k + 1)
  {
    SizeAdd(before, env(k).id.value, EntryOf(user, reqs[k], env(k).id.value));
  }

  ghost predicate HasRequest(m: map<DataId, Entry>, user: UserId, req: AddRequest, env: AddEnv) {
    WellFormed(req) && env.id.Some? && env.id.value in m && m[env.id.value] == EntryOf(user, req, env.id.value)
  }

  class Handler {
    const service: Service

    constructor (s: Service)
      ensures service == s
    {
      service := s;
    }

    /** The second loop: the requests before the first that does not go are stored, in order. */
    method Store(user: UserId, requests: seq<AddRequest>, env: nat -> AddEnv) returns (k: nat)
      requires user != "" && service.Valid() && FreshFrom(service.Now(), env, 0)
      modifies service.objectRepo, service.metadataRepo
      ensures service.Valid() && k == FirstStop(user, requests, env, 0)
      ensures service.Entries() == WithFirst(old(service.Entries()), user, requests, env, k)
    {
      hide View, AfterAdd, Consistent, FreshFor, FreshFrom, Supported;
      k := 0;
      while k < |requests|
        invariant k <= |requests|
        invariant service.Valid() && FreshFrom(service.Now(), env, k)
        invariant FirstStop(user, requests, env, 0) == FirstStop(user, requests, env, k)
        invariant forall j :: 0 <= j < k ==> Goes(user, requests[j], env(j))
        invariant service.Entries() == WithFirst(old(service.Entries()), user, requests, env, k)
      {
        var req := requests[k];
        if !WellFormed(req) {
          return;
        }
        var meta := new MetadataBox(req.metadata.value.value);
        FreshNext(service.Now(), meta.value.(userId := user), req.payload.value.value, env, k);
        var id := service.AddSealed(user, meta, req.payload.value.value, env(k));
        if id.None? {
          return;
        }
        k := k + 1;
      }
    }

    /** Nothing is stored unless the whole stream was received; then exactly the requests before the
        first that does not go are stored, each under its own id, and OK means that is all of them. */
    method Add(user: Option<UserId>, incoming: seq<AddRequest>, ending: Ending, env: nat -> AddEnv, sendOk: bool)
      returns (code: Code)
      requires service.Valid() && FreshFrom(service.Now(), env, 0)
      modifies service.objectRepo, service.metadataRepo
      ensures service.Valid()
      ensures user.None? || user.value == "" ==> code == Unauthenticated && service.Now() == old(service.Now())
      ensures user.Some? && user.value != "" && ending != EndOfStream ==>
        code == (if ending == Cancelled then Canceled else InvalidArgument) && service.Now() == old(service.Now())
      ensures user.Some? && user.value != "" && ending == EndOfStream ==>
        var k := FirstStop(user.value, incoming, env, 0);
        && Extended(old(service.Entries()), service.Entries(), user.value, incoming, env, k)
        && code == (if k == |incoming| then (if sendOk then OK else SendError)
                    else if WellFormed(incoming[k]) then Internal else InvalidArgument)
    {
      hide View, Consistent, FreshFor, FreshFrom, FreshIds, Extended, Goes;
      if user.None? || user.value == "" {
        return Unauthenticated;
      }
      var requests: seq<AddRequest> := [];
      while |requests| < |incoming|
        invariant requests <= incoming
      {
        requests := requests + [incoming[|requests|]];
      }
      match ending
      case Cancelled => return Canceled;
      case ReceiveError => return InvalidArgument;
      case EndOfStream =>
        assert requests == incoming;
        IdsAreFresh(service.Now(), env);
        var k := Store(user.value, requests, env);
        StoredExactly(old(service.Entries()), user.value, incoming, env, k);
        if k < |requests| {
          return if WellFormed(requests[k]) then Internal else InvalidArgument;
        }
        return if sendOk then OK else SendError;
    }
  }
}

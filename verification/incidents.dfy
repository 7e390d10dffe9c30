/**
 * The incident-report endpoints as transitions of an abstract store: the
 * registered users and a map from incident id to incident. Each operation
 * returns the new store and either its result or the HTTP error it raises.
 */
module Incidents {
  import opened Wrappers

  /** User and incident ids (UUIDs in the service). */
  type UserId = nat
  type IncidentId = nat

  /** Station of a report whose request names none. */
  const DefaultStation: string := "LDS"

  /** The body of a create request; `stationCode` is `None` when not sent. */
  datatype IncidentCreate = IncidentCreate(
    stationCode: Option<string>,
    trainId: Option<string>,
    kind: string,
    severity: int,
    description: Option<string>)

  /** The body of an update request: every field optional. */
  datatype IncidentUpdate = IncidentUpdate(
    kind: Option<string>,
    severity: Option<int>,
    description: Option<string>)

  datatype Incident = Incident(
    stationCode: string,
    trainId: Option<string>,
    kind: string,
    severity: int,
    description: Option<string>,
    owner: UserId,
    createdAt: int)

  datatype Store = Store(users: set<UserId>, incidents: map<IncidentId, Incident>)

  datatype ApiError = UserNotFound | IncidentNotFound | NotAuthorized {
    function Code(): int {
      match this
      case UserNotFound => 404
      case IncidentNotFound => 404
      case NotAuthorized => 403
    }

    function Detail(): string {
      match this
      case UserNotFound => "User not found"
      case IncidentNotFound => "Incident not found"
      case NotAuthorized => "Not authorized"
    }
  }

  /** The store after a request, and what the request returns. */
  datatype Response<+T> = Response(store: Store, result: Result<T, ApiError>)

  /** `get_user_or_404`: the user when registered, a 404 otherwise. */
  function GetUserOr404(s: Store, user: UserId): (r: Result<UserId, ApiError>)
    ensures r.Ok? <==> user in s.users
    ensures r.Ok? ==> r.value == user
    ensures r.Err? ==> r.error == UserNotFound && r.error.Code() == 404
    ensures r.Err? ==> r.error.Detail() == "User not found"
  {
    if user in s.users then Ok(user) else Err(UserNotFound)
  }

  /**
   * The incident a create request produces: the request's fields, the
   * station defaulting to "LDS", owned by the requesting user.
   */
  function NewIncident(req: IncidentCreate, user: UserId, createdAt: int): (inc: Incident)
    ensures inc.owner == user
    ensures inc.stationCode == (if req.stationCode.Some? then req.stationCode.value else DefaultStation)
    ensures inc.kind == req.kind && inc.severity == req.severity
    ensures inc.trainId == req.trainId && inc.description == req.description
    ensures inc.createdAt == createdAt
  {
    Incident(req.stationCode.GetOr(DefaultStation), req.trainId, req.kind, req.severity,
             req.description, user, createdAt)
  }

  /**
   * `create_incident`. The id is the fresh UUID the database assigns and
   * `now` the server's creation time.
   */
  function Create(s: Store, user: UserId, req: IncidentCreate, id: IncidentId, now: int): (r: Response<Incident>)
    requires id !in s.incidents
    ensures user !in s.users ==> r == Response(s, Err(UserNotFound))
    ensures user in s.users ==> r.result.Ok?
    ensures r.result.Ok? ==>
      && r.result.value.owner == user
      && r.result.value == NewIncident(req, user, now)
      && r.store.users == s.users
      && r.store.incidents.Keys == s.incidents.Keys + {id}
      && r.store.incidents[id] == r.result.value
      && |r.store.incidents| == |s.incidents| + 1
      && forall k :: k in s.incidents ==> r.store.incidents[k] == s.incidents[k]
  {
    match GetUserOr404(s, user)
    case Err(e) => Response(s, Err(e))
    case Ok(_) =>
      var inc := NewIncident(req, user, now);
      Response(s.(incidents := s.incidents[id := inc]), Ok(inc))
  }

  /** `get_my_incidents`: the incidents the user owns, keyed by id. */
  function ListMine(s: Store, user: UserId): (r: Response<map<IncidentId, Incident>>)
    ensures r.store == s
    ensures user !in s.users <==> r.result == Err(UserNotFound)
    ensures r.result.Ok? <==> user in s.users
    ensures r.result.Ok? ==>
      forall k :: k in r.result.value <==> k in s.incidents && s.incidents[k].owner == user
    ensures r.result.Ok? ==>
      forall k :: k in r.result.value ==> r.result.value[k] == s.incidents[k]
  {
    match GetUserOr404(s, user)
    case Err(e) => Response(s, Err(e))
    case Ok(_) =>
      Response(s, Ok(map k | k in s.incidents && s.incidents[k].owner == user :: s.incidents[k]))
  }

  /**
   * The ownership check `update_incident` and `delete_incident` share: a
   * missing incident is a 404 before a foreign owner is a 403.
   */
  function OwnedIncident(s: Store, id: IncidentId, user: UserId): (r: Result<Incident, ApiError>)
    ensures id !in s.incidents ==> r == Err(IncidentNotFound)
    ensures id in s.incidents && s.incidents[id].owner != user ==> r == Err(NotAuthorized)
    ensures r.Ok? <==> id in s.incidents && s.incidents[id].owner == user
    ensures r.Ok? ==> r.value == s.incidents[id]
    ensures id !in s.incidents ==> r.error.Code() == 404 && r.error.Detail() == "Incident not found"
    ensures id in s.incidents && s.incidents[id].owner != user ==>
      r.error.Code() == 403 && r.error.Detail() == "Not authorized"
  {
    if id !in s.incidents then Err(IncidentNotFound)
    else if s.incidents[id].owner != user then Err(NotAuthorized)
    else Ok(s.incidents[id])
  }

  /**
   * A partial update: each field of the patch replaces the stored one only
   * when it is truthy, so an empty string or a severity of 0 keeps the old
   * value. Station, train, owner and creation time never change.
   */
  function ApplyUpdate(inc: Incident, patch: IncidentUpdate): (r: Incident)
    ensures r.kind == (if Truthy(patch.kind) then patch.kind.value else inc.kind)
    ensures r.severity == (if TruthyInt(patch.severity) then patch.severity.value else inc.severity)
    ensures r.description == (if Truthy(patch.description) then patch.description else inc.description)
    ensures r.owner == inc.owner && r.stationCode == inc.stationCode
    ensures r.trainId == inc.trainId && r.createdAt == inc.createdAt
  {
    var inc := if Truthy(patch.kind) then inc.(kind := patch.kind.value) else inc;
    var inc := if TruthyInt(patch.severity) then inc.(severity := patch.severity.value) else inc;
    if Truthy(patch.description) then inc.(description := patch.description) else inc
  }

  /** `update_incident`. */
  function Update(s: Store, id: IncidentId, user: UserId, patch: IncidentUpdate): (r: Response<Incident>)
    ensures id !in s.incidents ==> r == Response(s, Err(IncidentNotFound))
    ensures id in s.incidents && s.incidents[id].owner != user ==> r == Response(s, Err(NotAuthorized))
    ensures r.result.Ok? <==> id in s.incidents && s.incidents[id].owner == user
    ensures r.result.Ok? ==>
      && r.store.users == s.users
      && r.store.incidents.Keys == s.incidents.Keys
      && r.store.incidents[id] == r.result.value
      && r.result.value == ApplyUpdate(s.incidents[id], patch)
      && r.result.value.owner == user
      && forall k :: k in s.incidents && k != id ==> r.store.incidents[k] == s.incidents[k]
  {
    match OwnedIncident(s, id, user)
    case Err(e) => Response(s, Err(e))
    case Ok(inc) =>
      var updated := ApplyUpdate(inc, patch);
      Response(s.(incidents := s.incidents[id := updated]), Ok(updated))
  }

  /** `delete_incident`. */
  function Delete(s: Store, id: IncidentId, user: UserId): (r: Response<()>)
    ensures id !in s.incidents ==> r == Response(s, Err(IncidentNotFound))
    ensures id in s.incidents && s.incidents[id].owner != user ==> r == Response(s, Err(NotAuthorized))
    ensures r.result.Ok? <==> id in s.incidents && s.incidents[id].owner == user
    ensures r.result.Ok? ==>
      && r.store.users == s.users
      && r.store.incidents.Keys == s.incidents.Keys - {id}
      && |r.store.incidents| == |s.incidents| - 1
      && forall k :: k in r.store.incidents ==> r.store.incidents[k] == s.incidents[k]
  {
    match OwnedIncident(s, id, user)
    case Err(e) => Response(s, Err(e))
    case Ok(_) => Response(s.(incidents := s.incidents - {id}), Ok(()))
  }

  // ---- Properties relating the operations ----

  /** Every incident belongs to a registered user. */
  ghost predicate OwnersRegistered(s: Store) {
    forall k :: k in s.incidents ==> s.incidents[k].owner in s.users
  }

  /** Create, update and delete all keep every incident owned by a registered user. */
  lemma OwnersStayRegistered(s: Store, user: UserId, req: IncidentCreate, patch: IncidentUpdate,
                             id: IncidentId, newId: IncidentId, now: int)
    requires OwnersRegistered(s)
    requires newId !in s.incidents
    ensures OwnersRegistered(Create(s, user, req, newId, now).store)
    ensures OwnersRegistered(Update(s, id, user, patch).store)
    ensures OwnersRegistered(Delete(s, id, user).store)
  {
  }

  /** A second delete of the same id is a 404. */
  lemma DeleteTwiceNotFound(s: Store, id: IncidentId, user: UserId)
    requires Delete(s, id, user).result.Ok?
    ensures Delete(Delete(s, id, user).store, id, user).result == Err(IncidentNotFound)
  {
  }

  /** Deleting a report just created by its owner restores the store. */
  lemma CreateThenDeleteRestores(s: Store, user: UserId, req: IncidentCreate, id: IncidentId, now: int)
    requires id !in s.incidents && user in s.users
    ensures Delete(Create(s, user, req, id, now).store, id, user) == Response(s, Ok(()))
  {
  }

  /** A new report shows up in its owner's listing and in nobody else's. */
  lemma CreateThenListMine(s: Store, user: UserId, other: UserId, req: IncidentCreate, id: IncidentId, now: int)
    requires id !in s.incidents && user in s.users
    ensures id in ListMine(Create(s, user, req, id, now).store, user).result.value
    ensures other != user ==> ListMine(Create(s, user, req, id, now).store, other).result == ListMine(s, other).result
  {
    var s1 := Create(s, user, req, id, now).store;
    if other != user && other in s.users {
      var before := ListMine(s, other).result.value;
      var after := ListMine(s1, other).result.value;
      assert s1.incidents[id].owner == user;
      forall k
        ensures k in after <==> k in before
      {
        if k == id {
          assert k !in after;
        }
      }
      assert before == after;
    }
  }

  /**
   * Update and delete look up the incident and compare its owner, but never
   * ask whether the user is registered: the set of users does not affect them.
   */
  lemma UpdateDeleteIgnoreRegistration(s: Store, users: set<UserId>, id: IncidentId, user: UserId,
                                       patch: IncidentUpdate)
    ensures Update(s.(users := users), id, user, patch).result == Update(s, id, user, patch).result
    ensures Delete(s.(users := users), id, user).result == Delete(s, id, user).result
  {
  }

  /** Applying the same update twice is applying it once. */
  lemma UpdateIdempotent(s: Store, id: IncidentId, user: UserId, patch: IncidentUpdate)
    ensures Update(Update(s, id, user, patch).store, id, user, patch) == Update(s, id, user, patch)
  {
  }

  /** An update whose fields are all falsy changes nothing. */
  lemma FalsyUpdateIsIdentity(s: Store, id: IncidentId, user: UserId, patch: IncidentUpdate)
    requires !Truthy(patch.kind) && !TruthyInt(patch.severity) && !Truthy(patch.description)
    requires id in s.incidents && s.incidents[id].owner == user
    ensures Update(s, id, user, patch) == Response(s, Ok(s.incidents[id]))
  {
  }
}

/** The cluster REST handler's endpoint discovery: request dispatch, the
    role and feature checks, the list of server ids a client should use
    (leader first, then the healthy followers) and its mapping to endpoints.

    The server role, the failover and agency flags, the coordinator list and
    the endpoint directory are inputs (a ClusterContext); the agency read
    transaction is an input too, and the reply counts how often the handler
    would have sent it. */
module Cluster {
  import opened Basics

  type ServerId = string

  datatype RequestType = Delete | Get | Head | Options | Post | Put | Patch | Illegal

  datatype ServerRole = Undefined | DbServer | Coordinator | Single | Agent

  /** One entry of the Supervision/Health object: the server id and the
      `Status` attribute when it is a string (None otherwise). */
  datatype HealthEntry = HealthEntry(key: ServerId, status: Option<string>)

  /** What the agency read transaction returns. leader is None when the
      leader slice is not a string; health lists the health object's entries
      in its iteration order. */
  datatype AgencyReadResult =
    | ReadFailed(errorCode: ErrorCode, errorMessage: string)
    | ReadOk(leader: Option<string>, health: seq<HealthEntry>)

  datatype ClusterContext = ClusterContext(
    role: ServerRole,
    automaticFailover: bool,
    agencyEnabled: bool,
    coordinators: seq<ServerId>,
    endpointOf: ServerId -> string)   // ClusterInfo::getServerEndpoint

  datatype Response =
    | ErrorResponse(httpCode: nat, error: ErrorCode, message: string)
    | Endpoints(endpoints: seq<string>)   // 200 {error: false, code: 200, endpoints}

  /** A response and the number of agency read transactions sent for it. */
  datatype Reply = Reply(response: Response, agencyReads: nat)

  const HttpForbidden: nat := 403
  const HttpServerError: nat := 500
  const HealthStatusGood := "GOOD"
  const EndpointsSuffix := "endpoints"

  const OnlyGetMessage := "only the GET method is allowed"
  const ExpectingEndpointsMessage := "expecting _api/cluster/endpoints"
  const FailoverDisabledMessage := "automatic failover is not enabled"
  const OnlyCoordinatorsMessage := "only coordinators can serve this request"

  /** Whether a health entry names a follower to report: not the leader, and
      its status is the string "GOOD". */
  predicate IsGoodFollower(entry: HealthEntry, leaderId: ServerId)
  {
    entry.key != leaderId && entry.status == Some(HealthStatusGood)
  }

  /** The ids the loop over the health object appends after the leader. */
  function Followers(health: seq<HealthEntry>, leaderId: ServerId): (ids: seq<ServerId>)
    ensures |ids| <= |health|
    ensures leaderId !in ids
  {
    if health == [] then []
    else (if IsGoodFollower(health[0], leaderId) then [health[0].key] else [])
         + Followers(health[1..], leaderId)
  }

  /** The id list of a failover-capable single server: empty while no leader
      is elected, otherwise the leader followed by its good followers. */
  function LeaderAndFollowers(leader: Option<string>, health: seq<HealthEntry>): seq<ServerId>
  {
    var leaderId := if leader.Some? then leader.value else "";
    if leaderId == "" then [] else [leaderId] + Followers(health, leaderId)
  }

  /** The second loop of handleCommandEndpoints: one endpoint per id, in order. */
  function ResolveEndpoints(ids: seq<ServerId>, endpointOf: ServerId -> string): (endpoints: seq<string>)
    ensures |endpoints| == |ids|
    ensures forall i :: 0 <= i < |ids| ==> endpoints[i] == endpointOf(ids[i])
  {
    if ids == [] then [] else [endpointOf(ids[0])] + ResolveEndpoints(ids[1..], endpointOf)
  }

  /** RestClusterHandler::handleCommandEndpoints. */
  function HandleCommandEndpoints(ctx: ClusterContext, read: AgencyReadResult): (r: Reply)
    ensures r.agencyReads == (if ctx.role == Single && ctx.automaticFailover && ctx.agencyEnabled then 1 else 0)
    ensures ctx.role == Coordinator ==>
              r.response.Endpoints?
              && |r.response.endpoints| == |ctx.coordinators|
              && forall i :: 0 <= i < |ctx.coordinators| ==>
                   r.response.endpoints[i] == ctx.endpointOf(ctx.coordinators[i])
    ensures ctx.role == Single && !(ctx.automaticFailover && ctx.agencyEnabled) ==>
              r.response == ErrorResponse(HttpForbidden, Forbidden, FailoverDisabledMessage)
    ensures ctx.role != Coordinator && ctx.role != Single ==>
              r.response == ErrorResponse(HttpForbidden, Forbidden, OnlyCoordinatorsMessage)
    ensures r.agencyReads == 1 && read.ReadFailed? ==>
              r.response == ErrorResponse(HttpServerError, read.errorCode, read.errorMessage)
    ensures r.agencyReads == 1 && read.ReadOk? ==>
              r.response == Endpoints(ResolveEndpoints(LeaderAndFollowers(read.leader, read.health), ctx.endpointOf))
  {
    if ctx.role == Coordinator then
      Reply(Endpoints(ResolveEndpoints(ctx.coordinators, ctx.endpointOf)), 0)
    else if ctx.role == Single then
      if !ctx.automaticFailover || !ctx.agencyEnabled then
        Reply(ErrorResponse(HttpForbidden, Forbidden, FailoverDisabledMessage), 0)
      else
        match read
        case ReadFailed(code, message) =>
          Reply(ErrorResponse(HttpServerError, code, message), 1)
        case ReadOk(leader, health) =>
          Reply(Endpoints(ResolveEndpoints(LeaderAndFollowers(leader, health), ctx.endpointOf)), 1)
    else
      Reply(ErrorResponse(HttpForbidden, Forbidden, OnlyCoordinatorsMessage), 0)
  }

  /** RestClusterHandler::execute. */
  function Execute(requestType: RequestType, suffixes: seq<string>,
                   ctx: ClusterContext, read: AgencyReadResult): (r: Reply)
    ensures requestType != Get ==>
              r == Reply(ErrorResponse(HttpForbidden, Forbidden, OnlyGetMessage), 0)
    ensures requestType == Get && (suffixes == [] || suffixes[0] != EndpointsSuffix) ==>
              r == Reply(ErrorResponse(HttpForbidden, Forbidden, ExpectingEndpointsMessage), 0)
    ensures requestType == Get && suffixes != [] && suffixes[0] == EndpointsSuffix ==>
              r == HandleCommandEndpoints(ctx, read)
    ensures r.agencyReads > 0 ==>
              requestType == Get && suffixes != [] && suffixes[0] == EndpointsSuffix
              && ctx.role == Single && ctx.automaticFailover && ctx.agencyEnabled
    ensures r.response.Endpoints? ==> requestType == Get && (ctx.role == Coordinator || ctx.role == Single)
  {
    if requestType != Get then
      Reply(ErrorResponse(HttpForbidden, Forbidden, OnlyGetMessage), 0)
    else if suffixes != [] && suffixes[0] == EndpointsSuffix then
      HandleCommandEndpoints(ctx, read)
    else
      Reply(ErrorResponse(HttpForbidden, Forbidden, ExpectingEndpointsMessage), 0)
  }

  // ---------------------------------------------------------------------
  // Properties of the id list

  /** Membership, both ways: an id is reported as a follower exactly when
      some health entry carries it, it is not the leader and its status is
      "GOOD". */
  lemma {:induction false} FollowersMembership(health: seq<HealthEntry>, leaderId: ServerId, id: ServerId)
    ensures id in Followers(health, leaderId) <==>
            exists j :: 0 <= j < |health| && health[j].key == id && IsGoodFollower(health[j], leaderId)
  {
    if health != [] {
      FollowersMembership(health[1..], leaderId, id);
      if exists j :: 0 <= j < |health| && health[j].key == id && IsGoodFollower(health[j], leaderId) {
        var j :| 0 <= j < |health| && health[j].key == id && IsGoodFollower(health[j], leaderId);
        if j > 0 {
          assert health[1..][j - 1] == health[j];
        }
      }
      if exists j :: 0 <= j < |health[1..]| && health[1..][j].key == id && IsGoodFollower(health[1..][j], leaderId) {
        var j :| 0 <= j < |health[1..]| && health[1..][j].key == id && IsGoodFollower(health[1..][j], leaderId);
        assert health[j + 1] == health[1..][j];
      }
    }
  }

  /** Order: the followers of a concatenation are the followers of each
      part, in order, so the health object's iteration order is kept. */
  lemma {:induction false} FollowersAppend(a: seq<HealthEntry>, b: seq<HealthEntry>, leaderId: ServerId)
    ensures Followers(a + b, leaderId) == Followers(a, leaderId) + Followers(b, leaderId)
  {
    if a == [] {
      assert a + b == b;
    } else {
      assert (a + b)[0] == a[0];
      assert (a + b)[1..] == a[1..] + b;
      FollowersAppend(a[1..], b, leaderId);
    }
  }

  predicate NoDuplicates(ids: seq<ServerId>)
  {
    forall i, j :: 0 <= i < j < |ids| ==> ids[i] != ids[j]
  }

  function Keys(health: seq<HealthEntry>): (keys: seq<ServerId>)
    ensures |keys| == |health|
    ensures forall i :: 0 <= i < |health| ==> keys[i] == health[i].key
  {
    if health == [] then [] else [health[0].key] + Keys(health[1..])
  }

  /** A health object has distinct keys, so no id is reported twice. */
  lemma {:induction false} FollowersNoDuplicates(health: seq<HealthEntry>, leaderId: ServerId)
    requires NoDuplicates(Keys(health))
    ensures NoDuplicates(Followers(health, leaderId))
  {
    if health != [] {
      var tail := health[1..];
      assert NoDuplicates(Keys(tail)) by {
        forall i, j | 0 <= i < j < |tail| ensures Keys(tail)[i] != Keys(tail)[j] {
          assert Keys(tail)[i] == Keys(health)[i + 1] && Keys(tail)[j] == Keys(health)[j + 1];
        }
      }
      FollowersNoDuplicates(tail, leaderId);
      if IsGoodFollower(health[0], leaderId) {
        FollowersMembership(tail, leaderId, health[0].key);
        forall j | 0 <= j < |tail| ensures tail[j].key != health[0].key {
          assert Keys(health)[0] == health[0].key && Keys(health)[j + 1] == tail[j].key;
        }
      }
    }
  }

  /** The id list of a single server: empty without a leader; otherwise the
      leader comes first, exactly once, and every later id is a health entry
      other than the leader whose status is "GOOD". */
  lemma EndpointIdsShape(leader: Option<string>, health: seq<HealthEntry>)
    ensures var ids := LeaderAndFollowers(leader, health);
            && (leader.None? || leader.value == "" <==> ids == [])
            && (leader.Some? && leader.value != "" ==>
                  ids[0] == leader.value
                  && ids[1..] == Followers(health, leader.value)
                  && forall i :: 1 <= i < |ids| ==>
                       ids[i] != leader.value
                       && exists j :: 0 <= j < |health| && health[j].key == ids[i]
                                      && health[j].status == Some(HealthStatusGood))
  {
    var ids := LeaderAndFollowers(leader, health);
    if leader.Some? && leader.value != "" {
      forall i | 1 <= i < |ids|
        ensures exists j :: 0 <= j < |health| && health[j].key == ids[i]
                            && health[j].status == Some(HealthStatusGood)
      {
        FollowersMembership(health, leader.value, ids[i]);
      }
    }
  }

  /** The endpoints reply of a single server with an elected leader L: the
      first endpoint is L's, the rest are those of the good followers in
      health-object order. */
  lemma SingleServerEndpoints(ctx: ClusterContext, leaderId: ServerId, health: seq<HealthEntry>)
    requires ctx.role == Single && ctx.automaticFailover && ctx.agencyEnabled
    requires leaderId != ""
    ensures var r := Execute(Get, [EndpointsSuffix], ctx, ReadOk(Some(leaderId), health));
            && r.agencyReads == 1
            && r.response.Endpoints?
            && |r.response.endpoints| == 1 + |Followers(health, leaderId)|
            && r.response.endpoints[0] == ctx.endpointOf(leaderId)
            && forall i :: 1 <= i < |r.response.endpoints| ==>
                 r.response.endpoints[i] == ctx.endpointOf(Followers(health, leaderId)[i - 1])
  {
  }

  /** The example of a leader L with health {L: GOOD, A: GOOD, B: BAD}:
      the ids are [L, A]. */
  lemma LeaderExample(l: ServerId, a: ServerId, b: ServerId)
    requires l != "" && l != a && l != b
    ensures LeaderAndFollowers(Some(l),
              [HealthEntry(l, Some("GOOD")), HealthEntry(a, Some("GOOD")), HealthEntry(b, Some("BAD"))])
            == [l, a]
  {
    var health := [HealthEntry(l, Some("GOOD")), HealthEntry(a, Some("GOOD")), HealthEntry(b, Some("BAD"))];
    assert "BAD" != HealthStatusGood by { assert "BAD"[0] != HealthStatusGood[0]; }
    assert Followers(health[1..][1..], l) == [] by {
      assert health[1..][1..][1..] == [];
    }
    assert Followers(health[1..], l) == [a];
  }
}

/** The connection registry: the list of live authenticated connections and the
    role-filtered fan-out that sends over a snapshot of it and drops the connections
    whose send failed. Whether a send fails is an oracle: the set of broken sockets. */
module Registry {
  import opened Wrappers
  import opened Accounts

  /** A transport handle. Two connections may share one. */
  type Socket = nat

  /** One registration: the socket, the user behind it and, for a tourist, the id of their
      tourist profile. Each `connect` creates a new object, so connections have identity. */
  class AuthenticatedConnection {
    const websocket: Socket
    const user: User
    const touristId: Option<int>

    constructor (websocket: Socket, user: User, touristId: Option<int>)
      ensures this.websocket == websocket && this.user == user && this.touristId == touristId
    {
      this.websocket := websocket;
      this.user := user;
      this.touristId := touristId;
    }
  }

  /** Who a fan-out is for. */
  datatype Audience = Admins | AdminsAndGuides | OwnTourist(touristId: int) | Everyone

  /** The role and profile tests each fan-out applies to a connection. */
  predicate Reaches(audience: Audience, c: AuthenticatedConnection): (reached: bool)
    ensures audience == Admins ==> (reached <==> c.user.role == "admin")
    ensures audience == AdminsAndGuides ==> (reached <==> c.user.role == "admin" || c.user.role == "tourist_guide")
    ensures audience.OwnTourist? ==> (reached <==> c.touristId == Some(audience.touristId))
    ensures audience == Everyone ==> reached
  {
    match audience
    case Admins => c.user.role == AdminRole
    case AdminsAndGuides => c.user.role == AdminRole || c.user.role == GuideRole
    case OwnTourist(id) => c.touristId.Some? && c.touristId.value == id
    case Everyone => true
  }

  predicate NoDuplicates(s: seq<AuthenticatedConnection>)
  {
    forall i, j :: 0 <= i < j < |s| ==> s[i] != s[j]
  }

  /** The connections of `snapshot` that `audience` reaches, in list order. */
  function Targets(snapshot: seq<AuthenticatedConnection>, audience: Audience): (r: seq<AuthenticatedConnection>)
    ensures forall i :: 0 <= i < |r| ==> r[i] in snapshot && Reaches(audience, r[i])
    ensures forall i :: 0 <= i < |snapshot| && Reaches(audience, snapshot[i]) ==> snapshot[i] in r
    ensures |r| <= |snapshot|
    decreases |snapshot|
  {
    if snapshot == [] then []
    else
      var last := snapshot[|snapshot| - 1];
      Targets(snapshot[..|snapshot| - 1], audience) + (if Reaches(audience, last) then [last] else [])
  }

  /** The attempted connections whose send failed, in the order they were attempted. */
  function FailedSends(attempted: seq<AuthenticatedConnection>, broken: set<Socket>): (r: seq<AuthenticatedConnection>)
    ensures forall i :: 0 <= i < |r| ==> r[i] in attempted && r[i].websocket in broken
    ensures forall i :: 0 <= i < |attempted| && attempted[i].websocket in broken ==> attempted[i] in r
    ensures |r| <= |attempted|
    decreases |attempted|
  {
    if attempted == [] then []
    else
      var last := attempted[|attempted| - 1];
      FailedSends(attempted[..|attempted| - 1], broken) + (if last.websocket in broken then [last] else [])
  }

  /** `s` without the connections in `gone`, the others kept in order. */
  function Without(s: seq<AuthenticatedConnection>, gone: seq<AuthenticatedConnection>): (r: seq<AuthenticatedConnection>)
    ensures forall i :: 0 <= i < |r| ==> r[i] in s && r[i] !in gone
    ensures forall i :: 0 <= i < |s| && s[i] !in gone ==> s[i] in r
    ensures |r| <= |s|
    ensures NoDuplicates(s) ==> NoDuplicates(r)
  {
    if s == [] then []
    else if s[0] in gone then Without(s[1..], gone)
    else [s[0]] + Without(s[1..], gone)
  }

  /** `s` without the connections on socket `ws`, the others kept in order. */
  function WithoutSocket(s: seq<AuthenticatedConnection>, ws: Socket): (r: seq<AuthenticatedConnection>)
    ensures forall i :: 0 <= i < |r| ==> r[i] in s && r[i].websocket != ws
    ensures forall i :: 0 <= i < |s| && s[i].websocket != ws ==> s[i] in r
    ensures |r| <= |s|
    ensures NoDuplicates(s) ==> NoDuplicates(r)
  {
    if s == [] then []
    else if s[0].websocket == ws then WithoutSocket(s[1..], ws)
    else [s[0]] + WithoutSocket(s[1..], ws)
  }

  /** Python's `list.remove`: drop the first occurrence of `x`. */
  function RemoveFirst(s: seq<AuthenticatedConnection>, x: AuthenticatedConnection): (r: seq<AuthenticatedConnection>)
    ensures x !in s ==> r == s
    ensures x in s ==> |r| == |s| - 1
    ensures multiset(r) == multiset(s) - multiset{x}
  {
    if s == [] then []
    else if s[0] == x then assert s == [s[0]] + s[1..]; s[1..]
    else assert s == [s[0]] + s[1..]; [s[0]] + RemoveFirst(s[1..], x)
  }

  lemma {:induction false} WithoutNothing(s: seq<AuthenticatedConnection>, gone: seq<AuthenticatedConnection>)
    requires forall c :: c in s ==> c !in gone
    ensures Without(s, gone) == s
  {
    if s != [] {
      WithoutNothing(s[1..], gone);
    }
  }

  /** On a list without duplicates, removing the first occurrence removes every occurrence. */
  lemma {:induction false} RemoveFirstIsWithout(s: seq<AuthenticatedConnection>, x: AuthenticatedConnection)
    requires NoDuplicates(s)
    ensures RemoveFirst(s, x) == Without(s, [x])
  {
    if s != [] {
      if s[0] == x {
        WithoutNothing(s[1..], [x]);
      } else {
        RemoveFirstIsWithout(s[1..], x);
      }
    }
  }

  lemma {:induction false} WithoutExtend(s: seq<AuthenticatedConnection>, gone: seq<AuthenticatedConnection>, x: AuthenticatedConnection)
    ensures Without(Without(s, gone), [x]) == Without(s, gone + [x])
  {
    if s != [] {
      WithoutExtend(s[1..], gone, x);
    }
  }

  /** Sends to the connections of `snapshot` that `audience` reaches, in order; a failed
      send is noted and delivery goes on with the next target. */
  method SendRound(snapshot: seq<AuthenticatedConnection>, audience: Audience, broken: set<Socket>)
    returns (attempted: seq<AuthenticatedConnection>, failed: seq<AuthenticatedConnection>)
    ensures attempted == Targets(snapshot, audience)
    ensures failed == FailedSends(attempted, broken)
  {
    attempted, failed := [], [];
    for i := 0 to |snapshot|
      invariant attempted == Targets(snapshot[..i], audience)
      invariant failed == FailedSends(attempted, broken)
    {
      var c := snapshot[i];
      assert snapshot[..i + 1][..i] == snapshot[..i];
      if Reaches(audience, c) {
        attempted := attempted + [c];
        if c.websocket in broken {
          failed := failed + [c];
        }
      }
    }
    assert snapshot[..|snapshot|] == snapshot;
  }

  /** The process-wide list of active connections. */
  class ConnectionManager {
    var activeConnections: seq<AuthenticatedConnection>

    /** Each element is a distinct connection object: `connect` appends fresh ones only. */
    ghost predicate Valid()
      reads this
    {
      NoDuplicates(activeConnections)
    }

    constructor ()
      ensures Valid() && activeConnections == []
    {
      activeConnections := [];
    }

    /** Appends one new connection at the end; an already registered socket is not deduplicated. */
    method Connect(websocket: Socket, user: User, touristId: Option<int>) returns (c: AuthenticatedConnection)
      requires Valid()
      modifies this
      ensures Valid() && fresh(c)
      ensures c.websocket == websocket && c.user == user && c.touristId == touristId
      ensures activeConnections == old(activeConnections) + [c]
    {
      c := new AuthenticatedConnection(websocket, user, touristId);
      activeConnections := activeConnections + [c];
    }

    /** Drops every connection on `websocket`; the rest keep their order. */
    method Disconnect(websocket: Socket)
      requires Valid()
      modifies this
      ensures Valid()
      ensures activeConnections == WithoutSocket(old(activeConnections), websocket)
    {
      activeConnections := WithoutSocket(activeConnections, websocket);
    }

    /** The removal loop after a send round: each noted connection still present is removed. */
    method RemoveConnections(toRemove: seq<AuthenticatedConnection>)
      requires Valid()
      modifies this
      ensures Valid()
      ensures activeConnections == Without(old(activeConnections), toRemove)
    {
      ghost var start := activeConnections;
      WithoutNothing(start, []);
      for i := 0 to |toRemove|
        invariant Valid()
        invariant activeConnections == Without(start, toRemove[..i])
      {
        var c := toRemove[i];
        assert toRemove[..i + 1] == toRemove[..i] + [c];
        WithoutExtend(start, toRemove[..i], c);
        if c in activeConnections {
          RemoveFirstIsWithout(activeConnections, c);
          activeConnections := RemoveFirst(activeConnections, c);
        } else {
          WithoutNothing(activeConnections, [c]);
        }
      }
      assert toRemove[..|toRemove|] == toRemove;
    }

    /** The common shape of every broadcast: a send round over a snapshot, then the removals. */
    method FanOut(audience: Audience, broken: set<Socket>) returns (attempted: seq<AuthenticatedConnection>)
      requires Valid()
      modifies this
      ensures Valid()
      ensures attempted == Targets(old(activeConnections), audience)
      ensures activeConnections == Without(old(activeConnections), FailedSends(attempted, broken))
    {
      var snapshot := activeConnections;
      var failed;
      attempted, failed := SendRound(snapshot, audience, broken);
      RemoveConnections(failed);
    }

    /** `broadcast_to_admins`. */
    method BroadcastToAdmins(broken: set<Socket>) returns (attempted: seq<AuthenticatedConnection>)
      requires Valid()
      modifies this
      ensures Valid()
      ensures attempted == Targets(old(activeConnections), Admins)
      ensures activeConnections == Without(old(activeConnections), FailedSends(attempted, broken))
    {
      attempted := FanOut(Admins, broken);
    }

    /** `broadcast_to_admins_and_guides`. */
    method BroadcastToAdminsAndGuides(broken: set<Socket>) returns (attempted: seq<AuthenticatedConnection>)
      requires Valid()
      modifies this
      ensures Valid()
      ensures attempted == Targets(old(activeConnections), AdminsAndGuides)
      ensures activeConnections == Without(old(activeConnections), FailedSends(attempted, broken))
    {
      attempted := FanOut(AdminsAndGuides, broken);
    }

    /** `send_to_tourist`: only connections whose tourist profile has this id. */
    method SendToTourist(touristId: int, broken: set<Socket>) returns (attempted: seq<AuthenticatedConnection>)
      requires Valid()
      modifies this
      ensures Valid()
      ensures attempted == Targets(old(activeConnections), OwnTourist(touristId))
      ensures activeConnections == Without(old(activeConnections), FailedSends(attempted, broken))
    {
      attempted := FanOut(OwnTourist(touristId), broken);
    }

    /** `broadcast`: every connection. */
    method Broadcast(broken: set<Socket>) returns (attempted: seq<AuthenticatedConnection>)
      requires Valid()
      modifies this
      ensures Valid()
      ensures attempted == old(activeConnections)
      ensures activeConnections == Without(old(activeConnections), FailedSends(attempted, broken))
    {
      attempted := FanOut(Everyone, broken);
      EveryoneIsEveryone(old(activeConnections));
    }

    /** `broadcast_location_update`: first the admins, then, over what is left, the tourist's own connections. */
    method BroadcastLocationUpdate(touristId: int, broken: set<Socket>)
      returns (toAdmins: seq<AuthenticatedConnection>, toTourist: seq<AuthenticatedConnection>)
      requires Valid()
      modifies this
      ensures Valid()
      ensures toAdmins == Targets(old(activeConnections), Admins)
      ensures toTourist == Targets(Without(old(activeConnections), FailedSends(toAdmins, broken)), OwnTourist(touristId))
      ensures activeConnections ==
        Without(Without(old(activeConnections), FailedSends(toAdmins, broken)), FailedSends(toTourist, broken))
    {
      toAdmins := BroadcastToAdmins(broken);
      toTourist := SendToTourist(touristId, broken);
    }
  }

  lemma {:induction false} EveryoneIsEveryone(s: seq<AuthenticatedConnection>)
    ensures Targets(s, Everyone) == s
    decreases |s|
  {
    if s != [] {
      EveryoneIsEveryone(s[..|s| - 1]);
    }
  }
}

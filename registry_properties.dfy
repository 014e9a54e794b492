/** Properties of the connection registry: disconnect is idempotent and harmless on an
    unknown socket, a fan-out drops exactly the failed targets, and a location update
    reaches nobody but admins and the tourist it is about. */
module RegistryProperties {
  import opened Wrappers
  import opened Accounts
  import opened Registry

  lemma {:induction false} DisconnectIsIdempotent(s: seq<AuthenticatedConnection>, ws: Socket)
    ensures WithoutSocket(WithoutSocket(s, ws), ws) == WithoutSocket(s, ws)
  {
    if s != [] {
      DisconnectIsIdempotent(s[1..], ws);
    }
  }

  lemma {:induction false} DisconnectUnknownSocketIsNoOp(s: seq<AuthenticatedConnection>, ws: Socket)
    requires forall i :: 0 <= i < |s| ==> s[i].websocket != ws
    ensures WithoutSocket(s, ws) == s
  {
    if s != [] {
      DisconnectUnknownSocketIsNoOp(s[1..], ws);
    }
  }

  /** After a fan-out over `s`, a connection is still registered exactly when it was not
      both targeted and broken: failed targets are gone, everything else stays. */
  lemma FanOutDropsExactlyTheFailed(s: seq<AuthenticatedConnection>, audience: Audience, broken: set<Socket>, i: nat)
    requires i < |s|
    ensures s[i] in Without(s, FailedSends(Targets(s, audience), broken)) <==>
            !(Reaches(audience, s[i]) && s[i].websocket in broken)
  {
    var failed := FailedSends(Targets(s, audience), broken);
    if Reaches(audience, s[i]) && s[i].websocket in broken {
      assert s[i] in Targets(s, audience);
      var k :| 0 <= k < |Targets(s, audience)| && Targets(s, audience)[k] == s[i];
      assert s[i] in failed;
    }
  }

  /** No broken socket means no removal. */
  lemma NoFailureKeepsEverything(s: seq<AuthenticatedConnection>, audience: Audience)
    ensures Without(s, FailedSends(Targets(s, audience), {})) == s
  {
    WithoutNothing(s, FailedSends(Targets(s, audience), {}));
  }

  /** A location update about tourist `touristId` is attempted only on admin connections
      and on connections of that tourist; another tourist, a guide or any other role gets nothing. */
  lemma LocationUpdatePrivacy(s: seq<AuthenticatedConnection>, touristId: int, broken: set<Socket>, c: AuthenticatedConnection)
    requires c in Targets(s, Admins) + Targets(Without(s, FailedSends(Targets(s, Admins), broken)), OwnTourist(touristId))
    ensures c in s
    ensures c.user.role == AdminRole || c.touristId == Some(touristId)
  {
    var rest := Without(s, FailedSends(Targets(s, Admins), broken));
    if c in Targets(s, Admins) {
    } else {
      assert c in Targets(rest, OwnTourist(touristId));
      assert c in rest;
    }
  }

  /** Three admin connections where the second one's send fails: all three are attempted,
      and only the second is removed. */
  lemma SecondOfThreeAdminsFails(a: AuthenticatedConnection, b: AuthenticatedConnection, c: AuthenticatedConnection)
    requires a.user.role == AdminRole && b.user.role == AdminRole && c.user.role == AdminRole
    requires a != b && b != c && a != c
    requires a.websocket != b.websocket && c.websocket != b.websocket
    ensures Targets([a, b, c], Admins) == [a, b, c]
    ensures FailedSends([a, b, c], {b.websocket}) == [b]
    ensures Without([a, b, c], [b]) == [a, c]
  {
    assert [a, b, c][..2] == [a, b];
    assert [a, b][..1] == [a];
    assert [a][..0] == [];
    assert Targets([a], Admins) == [a];
    assert Targets([a, b], Admins) == [a, b];
    assert FailedSends([a], {b.websocket}) == [];
    assert FailedSends([a, b], {b.websocket}) == [b];
    assert [a, b, c][1..] == [b, c];
    assert [b, c][1..] == [c];
  }
}

/** The admission rule of the live-location channel: the origin allow-list, then the
    authentication gate, then registration with the tourist profile for tourists. */
module Admission {
  import opened Wrappers
  import opened Accounts

  /** The four origins allowed for a host: the host itself over http and https, then the local development address. */
  function AllowedOrigins(host: string): (r: seq<string>)
    ensures |r| == 4
    ensures r[0] == "http://" + host && r[1] == "https://" + host
    ensures r[2] == "http://localhost:5000" && r[3] == "https://localhost:5000"
    ensures forall o :: o in r <==>
      o == "http://" + host || o == "https://" + host || o == "http://localhost:5000" || o == "https://localhost:5000"
  {
    ["http://" + host, "https://" + host, "http://localhost:5000", "https://localhost:5000"]
  }

  /** The host header as an f-string renders it: a present header verbatim, a missing one as the text "None". */
  function HostText(host: Option<string>): (text: string)
    ensures host.Some? ==> text == host.value
    ensures host.None? ==> text == "None"
  {
    match host
    case Some(h) => h
    case None => "None"
  }

  const PolicyViolation: int := 1008

  datatype Decision =
    | OriginNotAllowed
    | AuthenticationRequired
    | Accept(user: User, touristId: Option<int>)
  {
    /** The close code sent before dropping a refused channel. */
    function CloseCode(): int
      requires !Accept?
    {
      PolicyViolation
    }
  }

  /** An origin header is refused only when present, non-empty and not allowed;
      a missing or empty origin passes. */
  predicate OriginRefused(origin: Option<string>, host: Option<string>): (refused: bool)
    ensures origin.None? || origin == Some("") ==> !refused
    ensures origin.Some? && origin.value != "" ==>
      (refused <==> origin.value != "http://" + HostText(host) && origin.value != "https://" + HostText(host) &&
                    origin.value != "http://localhost:5000" && origin.value != "https://localhost:5000")
  {
    origin.Some? && origin.value != "" && origin.value !in AllowedOrigins(HostText(host))
  }

  /** `user` is the account the cookie token resolves to, if any; `ownTourist` is the id of
      the tourist profile whose owner is that account, if any. */
  function Admit(origin: Option<string>, host: Option<string>, user: Option<User>, ownTourist: Option<int>): (d: Decision)
    ensures d == OriginNotAllowed <==> OriginRefused(origin, host)
    ensures d == AuthenticationRequired <==> !OriginRefused(origin, host) && user.None?
    ensures d.Accept? ==> user == Some(d.user)
    ensures d.Accept? && d.touristId.Some? ==> d.user.role == TouristRole && d.touristId == ownTourist
    ensures d.Accept? && d.user.role == TouristRole ==> d.touristId == ownTourist
  {
    if OriginRefused(origin, host) then OriginNotAllowed
    else if user.None? then AuthenticationRequired
    else Accept(user.value, if user.value.role == TouristRole then ownTourist else None)
  }

  /** The serving host and the local development address always pass the origin check. */
  lemma ServingHostPasses(origin: string, host: string)
    requires origin == "http://" + host || origin == "https://" + host || origin == "http://localhost:5000" || origin == "https://localhost:5000"
    ensures !OriginRefused(Some(origin), Some(host))
  {
  }

  /** Without a host header the allow-list holds "http://None", so that literal origin passes. */
  lemma MissingHostAdmitsNoneOrigin()
    ensures !OriginRefused(Some("http://None"), None)
    ensures OriginRefused(Some("http://example.org"), None)
  {
  }

  /** A non-tourist account is registered without a tourist profile, whatever the profile lookup says. */
  lemma NonTouristHasNoProfile(origin: Option<string>, host: Option<string>, user: User, ownTourist: Option<int>)
    requires !OriginRefused(origin, host) && user.role != TouristRole
    ensures Admit(origin, host, Some(user), ownTourist) == Accept(user, None)
  {
  }
}

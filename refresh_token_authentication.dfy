/** The refresh-token grant request (section 6 of RFC 6749): a grant request
    of type `refresh_token` that also carries the refresh token presented by the
    client and the scopes it asks for. */
module RefreshTokenAuthentication {
  import opened Wrappers
  import opened SpringText
  import opened GrantAuthentication

  const RefreshTokenEmptyMessage := "refreshToken cannot be empty"

  /** A built refresh-token grant request; immutable. */
  datatype RefreshTokenAuthenticationToken<P, V> = RefreshTokenAuthenticationToken(
    grant: GrantAuthenticationToken<P, V>,
    refreshToken: string,
    scopes: set<string>)
  {
    function GrantType(): AuthorizationGrantType { grant.grantType }
    function Issuer(): string { grant.issuer }
    function Principal(): P { grant.clientPrincipal }
    function Credentials(): string { grant.Credentials() }
    function AdditionalParameters(): map<string, V> { grant.additionalParameters }

    /** What every value built by MakeRefreshTokenAuthenticationToken satisfies. */
    predicate Valid() {
      && grant.Valid()
      && grant.grantType == RefreshTokenGrantType
      && HasText(Some(refreshToken))
    }
  }

  /** The rule each constructor check enforces, per argument. */
  predicate Rejects<P>(message: string, issuer: Option<string>, refreshToken: Option<string>,
                       clientPrincipal: Option<P>)
  {
    || (message == IssuerEmptyMessage && !HasText(issuer))
    || (message == RefreshTokenEmptyMessage && !HasText(refreshToken))
    || (message == ClientPrincipalNullMessage && clientPrincipal.None?)
  }

  /** The constructor: the common grant checks run first (the superclass
      constructor), then the refresh token is checked. It fails exactly when
      some argument is invalid, always with the message of an invalid one, and
      otherwise returns every argument unchanged, with the grant type fixed to
      `refresh_token` and empty credentials. */
  function MakeRefreshTokenAuthenticationToken<P, V>(
    issuer: Option<string>,
    refreshToken: Option<string>,
    clientPrincipal: Option<P>,
    scopes: set<string>,
    additionalParameters: Option<map<string, V>>
  ): (r: Result<RefreshTokenAuthenticationToken<P, V>, string>)
    ensures r.Success? <==> HasText(issuer) && HasText(refreshToken) && clientPrincipal.Some?
    ensures r.Failure? ==> Rejects(r.error, issuer, refreshToken, clientPrincipal)
    ensures r.Success? ==>
      && r.value.Valid()
      && r.value.GrantType() == RefreshTokenGrantType
      && r.value.Issuer() == issuer.value
      && r.value.refreshToken == refreshToken.value
      && r.value.Principal() == clientPrincipal.value
      && r.value.Credentials() == ""
      && r.value.scopes == scopes
      && r.value.AdditionalParameters() == (if additionalParameters.Some? then additionalParameters.value else map[])
  {
    var grant :- MakeGrantAuthenticationToken(Some(RefreshTokenGrantType), issuer, clientPrincipal, additionalParameters);
    if !HasText(refreshToken) then Failure(RefreshTokenEmptyMessage)
    else Success(RefreshTokenAuthenticationToken(grant, refreshToken.value, scopes))
  }

  /** Building a request from the fields of any valid request gives that very
      request back: the getters lose nothing and the constructor adds nothing. */
  lemma RebuildFromGetters<P, V>(t: RefreshTokenAuthenticationToken<P, V>)
    requires t.Valid()
    ensures MakeRefreshTokenAuthenticationToken(Some(t.Issuer()), Some(t.refreshToken), Some(t.Principal()),
                                                t.scopes, Some(t.AdditionalParameters())) == Success(t)
  {
  }

  /** Two argument lists that build the same request agree on every argument
      (a null parameter map and an empty one being the same). */
  lemma ConstructionIsInjective<P, V>(
    issuer1: Option<string>, refreshToken1: Option<string>, clientPrincipal1: Option<P>,
    scopes1: set<string>, additionalParameters1: Option<map<string, V>>,
    issuer2: Option<string>, refreshToken2: Option<string>, clientPrincipal2: Option<P>,
    scopes2: set<string>, additionalParameters2: Option<map<string, V>>)
    requires MakeRefreshTokenAuthenticationToken(issuer1, refreshToken1, clientPrincipal1, scopes1, additionalParameters1).Success?
    requires MakeRefreshTokenAuthenticationToken(issuer1, refreshToken1, clientPrincipal1, scopes1, additionalParameters1)
          == MakeRefreshTokenAuthenticationToken(issuer2, refreshToken2, clientPrincipal2, scopes2, additionalParameters2)
    ensures issuer1 == issuer2 && refreshToken1 == refreshToken2 && clientPrincipal1 == clientPrincipal2
    ensures scopes1 == scopes2
    ensures (if additionalParameters1.Some? then additionalParameters1.value else map[])
         == (if additionalParameters2.Some? then additionalParameters2.value else map[])
  {
  }

  /** An issuer without text is rejected with "issuer cannot be empty" whenever
      it is the only invalid argument. */
  lemma IssuerWithoutTextRejected<P, V>(
    issuer: Option<string>, refreshToken: Option<string>, clientPrincipal: Option<P>,
    scopes: set<string>, additionalParameters: Option<map<string, V>>)
    requires !HasText(issuer) && HasText(refreshToken) && clientPrincipal.Some?
    ensures MakeRefreshTokenAuthenticationToken(issuer, refreshToken, clientPrincipal, scopes, additionalParameters)
         == Failure(IssuerEmptyMessage)
  {
  }

  /** A refresh token without text is rejected with "refreshToken cannot be
      empty" whenever it is the only invalid argument. */
  lemma RefreshTokenWithoutTextRejected<P, V>(
    issuer: Option<string>, refreshToken: Option<string>, clientPrincipal: Option<P>,
    scopes: set<string>, additionalParameters: Option<map<string, V>>)
    requires HasText(issuer) && !HasText(refreshToken) && clientPrincipal.Some?
    ensures MakeRefreshTokenAuthenticationToken(issuer, refreshToken, clientPrincipal, scopes, additionalParameters)
         == Failure(RefreshTokenEmptyMessage)
  {
  }

  /** A null client principal is rejected with "clientPrincipal cannot be
      null" whenever it is the only invalid argument. */
  lemma NullClientPrincipalRejected<P, V>(
    issuer: Option<string>, refreshToken: Option<string>,
    scopes: set<string>, additionalParameters: Option<map<string, V>>)
    requires HasText(issuer) && HasText(refreshToken)
    ensures MakeRefreshTokenAuthenticationToken<P, V>(issuer, refreshToken, None, scopes, additionalParameters)
         == Failure(ClientPrincipalNullMessage)
  {
  }
}

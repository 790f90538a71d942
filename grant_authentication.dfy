/** The common part of every OAuth 2.0 authorization grant request: the grant
    type, the issuer identifier, the authenticated client principal and the
    additional protocol parameters, validated once when the request is built.
    The client principal and the parameter values are opaque to this model, so
    they are type parameters. */
module GrantAuthentication {
  import opened Wrappers
  import opened SpringText

  /** An authorization grant type, identified by its protocol value. */
  datatype AuthorizationGrantType = AuthorizationGrantType(value: string)

  /** The grant type of section 6 of RFC 6749, "Refreshing an Access Token". */
  const RefreshTokenGrantType := AuthorizationGrantType("refresh_token")

  const GrantTypeNullMessage := "authorizationGrantType cannot be null"
  const IssuerEmptyMessage := "issuer cannot be empty"
  const ClientPrincipalNullMessage := "clientPrincipal cannot be null"

  /** A built grant request. Its fields are its getters; it is never changed
      after construction. */
  datatype GrantAuthenticationToken<P, V> = GrantAuthenticationToken(
    grantType: AuthorizationGrantType,
    issuer: string,
    clientPrincipal: P,
    additionalParameters: map<string, V>)
  {
    /** A grant request never carries a secret in its credentials slot. */
    function Credentials(): string {
      ""
    }

    /** What every value built by MakeGrantAuthenticationToken satisfies. */
    predicate Valid() {
      HasText(Some(issuer))
    }
  }

  /** The rule each constructor check enforces, per argument. */
  predicate Rejects<P, V>(message: string, grantType: Option<AuthorizationGrantType>,
                          issuer: Option<string>, clientPrincipal: Option<P>)
  {
    || (message == GrantTypeNullMessage && grantType.None?)
    || (message == IssuerEmptyMessage && !HasText(issuer))
    || (message == ClientPrincipalNullMessage && clientPrincipal.None?)
  }

  /** The issuer-taking constructor: rejects a null grant type, an issuer
      without text and a null client principal, and otherwise keeps the
      arguments, with a null parameter map read as the empty map. */
  function MakeGrantAuthenticationToken<P, V>(
    grantType: Option<AuthorizationGrantType>,
    issuer: Option<string>,
    clientPrincipal: Option<P>,
    additionalParameters: Option<map<string, V>>
  ): (r: Result<GrantAuthenticationToken<P, V>, string>)
    ensures r.Success? <==> grantType.Some? && HasText(issuer) && clientPrincipal.Some?
    ensures r.Failure? ==> Rejects<P, V>(r.error, grantType, issuer, clientPrincipal)
    ensures r.Success? ==>
      && r.value.Valid()
      && r.value.grantType == grantType.value
      && r.value.issuer == issuer.value
      && r.value.clientPrincipal == clientPrincipal.value
      && r.value.additionalParameters == (if additionalParameters.Some? then additionalParameters.value else map[])
      && r.value.Credentials() == ""
  {
    if grantType.None? then Failure(GrantTypeNullMessage)
    else if !HasText(issuer) then Failure(IssuerEmptyMessage)
    else if clientPrincipal.None? then Failure(ClientPrincipalNullMessage)
    else
      var parameters := if additionalParameters.Some? then additionalParameters.value else map[];
      Success(GrantAuthenticationToken(grantType.value, issuer.value, clientPrincipal.value, parameters))
  }
}

/** The four construction scenarios of the refresh-token grant request's unit
    tests, over an arbitrary client principal and parameter value: issuer
    "https://example.com/issuer1", refresh token "refresh-token", scopes
    {"scope1"} and additional parameters {"param1" -> value1}. */
module RefreshTokenScenarios {
  import opened Wrappers
  import opened GrantAuthentication
  import opened RefreshTokenAuthentication

  const Issuer1 := "https://example.com/issuer1"
  const RefreshTokenValue := "refresh-token"
  const Scopes := {"scope1"}

  lemma IssuerNullRejected<P, V>(clientPrincipal: P, value1: V)
    ensures MakeRefreshTokenAuthenticationToken(None, Some(RefreshTokenValue), Some(clientPrincipal), Scopes,
                                                Some(map["param1" := value1]))
         == Failure("issuer cannot be empty")
  {
  }

  lemma RefreshTokenNullOrEmptyRejected<P, V>(clientPrincipal: P, value1: V)
    ensures MakeRefreshTokenAuthenticationToken(Some(Issuer1), None, Some(clientPrincipal), Scopes,
                                                Some(map["param1" := value1]))
         == Failure("refreshToken cannot be empty")
    ensures MakeRefreshTokenAuthenticationToken(Some(Issuer1), Some(""), Some(clientPrincipal), Scopes,
                                                Some(map["param1" := value1]))
         == Failure("refreshToken cannot be empty")
  {
  }

  lemma ClientPrincipalNullRejected<P, V>(value1: V)
    ensures MakeRefreshTokenAuthenticationToken<P, V>(Some(Issuer1), Some(RefreshTokenValue), None, Scopes,
                                                      Some(map["param1" := value1]))
         == Failure("clientPrincipal cannot be null")
  {
  }

  lemma ScopesProvidedThenCreated<P, V>(clientPrincipal: P, value1: V)
    ensures var r := MakeRefreshTokenAuthenticationToken(Some(Issuer1), Some(RefreshTokenValue), Some(clientPrincipal),
                                                         Scopes, Some(map["param1" := value1]));
      && r.Success?
      && r.value.GrantType() == AuthorizationGrantType("refresh_token")
      && r.value.Issuer() == Issuer1
      && r.value.refreshToken == RefreshTokenValue
      && r.value.Principal() == clientPrincipal
      && r.value.Credentials() == ""
      && r.value.scopes == Scopes
      && r.value.AdditionalParameters() == map["param1" := value1]
  {
  }
}

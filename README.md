# Refresh-token grant request construction

A Dafny model of how Spring Authorization Server builds the request object for
the OAuth 2.0 refresh-token grant (section 6 of RFC 6749),
`OAuth2RefreshTokenAuthenticationToken`, on top of its common base
`OAuth2AuthorizationGrantAuthenticationToken`.

A grant request is an immutable value. Its constructor validates the
arguments eagerly and throws `IllegalArgumentException` with a fixed message:

- "issuer cannot be empty" for an issuer that is null, empty or only white space;
- "refreshToken cannot be empty" for a refresh token that is null, empty or only white space;
- "clientPrincipal cannot be null" for a null client principal.

Otherwise the request keeps every argument as given. Its grant type is always
`refresh_token` and its credentials are always the empty string, so the
request never exposes the client's secret. A null additional-parameters map
becomes the empty map.

Layout:

- `wrappers.dfy`: `Option` stands for a nullable Java reference. `Result` is a built value or the message of the exception the constructor throws.
- `spring_text.dfy`: the text test of Spring's `Assert.hasText`, with Java's `Character.isWhitespace` written out as of Java 9 (Unicode 6.3 and later); Java 8 also counts U+180E as white space.
- `grant_authentication.dfy`: the base grant request and its issuer-taking constructor (lines 78-91 of OAuth2AuthorizationGrantAuthenticationToken.java). It holds the issuer and principal checks, the defaulting of the parameter map and the empty credentials (lines 117-120).
- `refresh_token_authentication.dfy`: the refresh-token grant request, its constructor and the general properties.
- `refresh_token_scenarios.dfy`: the four construction scenarios of the unit tests.

The client principal and the values of the additional parameters are opaque.
They are type parameters `P` and `V`.

The constructor of `OAuth2RefreshTokenAuthenticationToken` is not written out
here; its behaviour is taken from its unit tests and from the base class it
extends. Two modelling choices follow from that:

- The refresh token is checked with the same "has text" test as the issuer. The tests show only that null and "" are refused. The message "... cannot be empty" is the one the base class pairs with `Assert.hasText` (line 82 of OAuth2AuthorizationGrantAuthenticationToken.java, the base class).
- The base-class checks (issuer, then client principal) run before the refresh-token check, because a Java constructor calls its superclass constructor first. No property depends on this order. Each rejection property holds when exactly one argument is invalid. In general the message always names an argument that is in fact invalid (`Rejects`).

## Model

| member | source | states |
|---|---|---|
| SpringText.ContainsText | oauth2-authorization-server/src/test/java/org/springframework/security/oauth2/server/authorization/authentication/OAuth2RefreshTokenAuthenticationTokenTests.java:54-61 | the scan for text succeeds exactly when some character of the string is not Java white space |
| SpringText.HasText | oauth2-authorization-server/src/test/java/org/springframework/security/oauth2/server/authorization/authentication/OAuth2RefreshTokenAuthenticationTokenTests.java:47-61 | `Assert.hasText` accepts exactly the non-null strings holding a non-white-space character, which are therefore non-empty |
| GrantAuthentication.MakeGrantAuthenticationToken | oauth2-authorization-server/src/test/java/org/springframework/security/oauth2/server/authorization/authentication/OAuth2RefreshTokenAuthenticationTokenTests.java:47-80 | base-class constructor (OAuth2AuthorizationGrantAuthenticationToken.java:78-91): construction succeeds iff the grant type is non-null, the issuer has text and the principal is non-null; a failure carries the message of an invalid argument; a success returns grant type, issuer and principal unchanged, a null parameter map as the empty map, and empty credentials |
| RefreshTokenAuthentication.MakeRefreshTokenAuthenticationToken | oauth2-authorization-server/src/test/java/org/springframework/security/oauth2/server/authorization/authentication/OAuth2RefreshTokenAuthenticationTokenTests.java:46-81 | construction succeeds iff the issuer and refresh token have text and the principal is non-null; a failure names an invalid argument with its fixed message; a success has grant type `refresh_token`, returns issuer, refresh token, principal, scopes and parameters unchanged and has empty credentials |
| RefreshTokenAuthentication.RebuildFromGetters | oauth2-authorization-server/src/test/java/org/springframework/security/oauth2/server/authorization/authentication/OAuth2RefreshTokenAuthenticationTokenTests.java:71-80 | rebuilding from the getters of any valid request yields that same request: the getters lose nothing |
| RefreshTokenAuthentication.ConstructionIsInjective | oauth2-authorization-server/src/test/java/org/springframework/security/oauth2/server/authorization/authentication/OAuth2RefreshTokenAuthenticationTokenTests.java:75-80 | two argument lists that build the same request agree on issuer, refresh token, principal, scopes and parameters |
| RefreshTokenAuthentication.IssuerWithoutTextRejected | oauth2-authorization-server/src/test/java/org/springframework/security/oauth2/server/authorization/authentication/OAuth2RefreshTokenAuthenticationTokenTests.java:47-51 | an issuer without text, all else valid, is rejected with "issuer cannot be empty" |
| RefreshTokenAuthentication.RefreshTokenWithoutTextRejected | oauth2-authorization-server/src/test/java/org/springframework/security/oauth2/server/authorization/authentication/OAuth2RefreshTokenAuthenticationTokenTests.java:54-61 | a refresh token without text, all else valid, is rejected with "refreshToken cannot be empty" |
| RefreshTokenAuthentication.NullClientPrincipalRejected | oauth2-authorization-server/src/test/java/org/springframework/security/oauth2/server/authorization/authentication/OAuth2RefreshTokenAuthenticationTokenTests.java:64-68 | a null client principal, all else valid, is rejected with "clientPrincipal cannot be null" |
| RefreshTokenScenarios.IssuerNullRejected | oauth2-authorization-server/src/test/java/org/springframework/security/oauth2/server/authorization/authentication/OAuth2RefreshTokenAuthenticationTokenTests.java:47-51 | the null-issuer scenario fails with "issuer cannot be empty" |
| RefreshTokenScenarios.RefreshTokenNullOrEmptyRejected | oauth2-authorization-server/src/test/java/org/springframework/security/oauth2/server/authorization/authentication/OAuth2RefreshTokenAuthenticationTokenTests.java:54-61 | the null and the empty refresh token both fail with "refreshToken cannot be empty" |
| RefreshTokenScenarios.ClientPrincipalNullRejected | oauth2-authorization-server/src/test/java/org/springframework/security/oauth2/server/authorization/authentication/OAuth2RefreshTokenAuthenticationTokenTests.java:64-68 | the null-principal scenario fails with "clientPrincipal cannot be null" |
| RefreshTokenScenarios.ScopesProvidedThenCreated | oauth2-authorization-server/src/test/java/org/springframework/security/oauth2/server/authorization/authentication/OAuth2RefreshTokenAuthenticationTokenTests.java:71-81 | the valid scenario succeeds with grant type `refresh_token`, the given issuer, token, principal, scopes and parameters, and empty credentials |

## Left out

- The deprecated issuer-less constructor of the base class (lines 55-67 of OAuth2AuthorizationGrantAuthenticationToken.java) is not modelled. The refresh-token request is always built with an issuer.
- Null scopes are not modelled: scopes are a plain `set<string>`.
- Null map keys and null scope elements are not modelled: Java's `HashMap` copy (OAuth2AuthorizationGrantAuthenticationToken.java:87-90) and `Set<String>` accept them, but the model's `string` keys and elements cannot be null. No property here depends on them.
- SpringText.IsWhitespace follows Unicode 6.3 and later (Java 9 and later); under Java 8, U+180E MONGOLIAN VOWEL SEPARATOR is also white space, so a string made only of it is refused there and accepted by the model.
- Defensive copying and read-only wrapping of the parameter map are not modelled. Values are immutable in the model, so later changes to the caller's map cannot be expressed.
- Registered clients, `OAuth2ClientAuthenticationToken` and client authentication are not modelled. The principal is opaque.
- The refresh-token grant provider is not modelled: token lookup, client match, scope narrowing, token rotation and issuing.
- The Spring Security `Authentication` base-class concerns are not modelled: authorities, the authenticated flag and serialisation.
- The OIDC client-registration request is not modelled. It is a separate request family.

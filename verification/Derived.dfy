/** The tokens the platform mints and verifies; the mac is any function of the secret and the scope. */
module Derived {
  import opened Text
  import opened Base64Url
  import opened Scopes

  type Mac = (string, Bytes) -> Bytes

  /** The principal a scope names, which has the fields of what was parsed. */
  function PrincipalOf(scope: Bytes): Option<Scope> { Parse(scope) }

  function Mint(mac: Mac, secret: string, scope: Bytes): Option<string> {
    if secret == "" || PrincipalOf(scope).None? then None else Some(Token(scope, mac(secret, scope)))
  }

  function VerifyDerived(mac: Mac, secret: string, token: string): Option<Scope> {
    match Of(token)
    case None => None
    case Some(scope) => if token != Token(scope, mac(secret, scope)) then None else PrincipalOf(scope)
  }

  /** With any secret but the empty one, a token is accepted as a principal exactly when Mint makes
      it of a scope that names the principal, and of no other scope. */
  lemma VerifiesWhatIsMinted(mac: Mac, secret: string, token: string, p: Scope)
    requires secret != ""
    ensures VerifyDerived(mac, secret, token) == Some(p) <==>
            exists scope: Bytes :: Mint(mac, secret, scope) == Some(token) && Parse(scope) == Some(p)
    ensures forall a: Bytes, b: Bytes :: Mint(mac, secret, a) == Mint(mac, secret, b) == Some(token) ==> a == b
  {
    hide Parse, Token, Of;
    forall scope: Bytes ensures Of(Token(scope, mac(secret, scope))) == Some(scope) {
      OfUndoesToken(scope, mac(secret, scope));
    }
    if VerifyDerived(mac, secret, token) == Some(p) {
      assert Mint(mac, secret, Of(token).value) == Some(token);
    }
  }

  /** A minted token is verified as the principal its constructor was given. */
  lemma MintedIsVerified(mac: Mac, secret: string, x: Scope)
    requires secret != "" && Named(x) && IsBytes(Written(x))
    ensures var token := Mint(mac, secret, Written(x));
            token.Some? && VerifyDerived(mac, secret, token.value) == Some(x)
  {
    hide Parse, Token, Of;
    ParseUndoesWritten(x);
    OfUndoesToken(Written(x), mac(secret, Written(x)));
  }

  /** Verifying does not ask for a secret as minting does: under the empty one nothing is minted,
      and a token of every scope is accepted. */
  lemma EmptySecretVerifies(mac: Mac, scope: Bytes)
    ensures Mint(mac, "", scope) == None
    ensures VerifyDerived(mac, "", Token(scope, mac("", scope))) == Parse(scope)
  {
    hide Parse, Token, Of;
    OfUndoesToken(scope, mac("", scope));
  }
}

/** Choosing how to authenticate with Grafana (services/grafana.py:113-144;
    the root-level grafana.py:71-102 is the same decision). The login POST is
    an input: only its status code matters. */
module Auth {
  import opened Wrappers
  import opened Text

  /** The authentication fields of a dashboard entry. */
  datatype AuthSettings = AuthSettings(
    auth: bool,
    domain: bool,
    login: Option<string>,
    password: Option<string>,
    token: Option<string>)

  /** What `authenticate` does to the session. */
  datatype AuthAction =
    | NoAuth
    | BearerHeader(token: string)
    | LoginPost(user: string, password: string)

  /** The method-selection part of `authenticate`: disabled, then domain
      credentials (the Confluence login up to its first '@'), then the
      entry's own login and password, then a bearer token, else ValueError. */
  function ChooseAuth(a: AuthSettings, wikiLogin: string, wikiPassword: string): (r: Result<AuthAction>)
    ensures !a.auth ==> r == Success(NoAuth)
    ensures a.auth && a.domain ==>
              r.Success? && r.value.LoginPost? && r.value.password == wikiPassword
              && '@' !in r.value.user
              && (Contains(wikiLogin, "@") ==> StartsWith(wikiLogin, r.value.user + "@"))
              && (!Contains(wikiLogin, "@") ==> r.value.user == wikiLogin)
    ensures a.auth && !a.domain && Truthy(a.login) && Truthy(a.password) ==>
              r == Success(LoginPost(a.login.value, a.password.value))
    ensures a.auth && !a.domain && !(Truthy(a.login) && Truthy(a.password)) && Truthy(a.token) ==>
              r == Success(BearerHeader(a.token.value))
    ensures r.Failure? <==>
              a.auth && !a.domain && !(Truthy(a.login) && Truthy(a.password)) && !Truthy(a.token)
    ensures r.Failure? ==> r.error.ValueError?
  {
    if !a.auth then Success(NoAuth)
    else if a.domain then
      var user := HeadBefore(wikiLogin, "@");
      UserHasNoAt(wikiLogin, user);
      Success(LoginPost(user, wikiPassword))
    else if Truthy(a.login) && Truthy(a.password) then Success(LoginPost(a.login.value, a.password.value))
    else if Truthy(a.token) then Success(BearerHeader(a.token.value))
    else Failure(ValueError("No valid authentication method provided."))
  }

  /** `login.split('@')[0]` contains no '@'. */
  lemma UserHasNoAt(s: string, user: string)
    requires user == HeadBefore(s, "@")
    ensures '@' !in user
  {
    if '@' in user {
      var j :| 0 <= j < |user| && user[j] == '@';
      if Contains(s, "@") {
        assert StartsWith(s, user + "@");
        assert s[j] == user[j];
        assert s[j..j + 1] == "@";
        assert OccursAt(s, "@", j);
        assert false;
      } else {
        assert s[j..j + 1] == "@";
        ContainsIff(s, "@");
        assert OccursAt(s, "@", j);
        assert false;
      }
    }
  }

  /** `authenticate` as a whole: a login POST that does not answer 200
      raises ConnectionError; the header and no-op paths never post. */
  function Authenticate(a: AuthSettings, wikiLogin: string, wikiPassword: string, postStatus: int): (r: Result<AuthAction>)
    ensures ChooseAuth(a, wikiLogin, wikiPassword).Failure? ==> r == ChooseAuth(a, wikiLogin, wikiPassword)
    ensures r.Success? <==>
              ChooseAuth(a, wikiLogin, wikiPassword).Success?
              && (ChooseAuth(a, wikiLogin, wikiPassword).value.LoginPost? ==> postStatus == 200)
    ensures r.Success? ==> r == ChooseAuth(a, wikiLogin, wikiPassword)
    ensures r.Failure? && ChooseAuth(a, wikiLogin, wikiPassword).Success? ==> r.error.ConnectionError?
  {
    var action :- ChooseAuth(a, wikiLogin, wikiPassword);
    if action.LoginPost? && postStatus != 200 then Failure(ConnectionError("Failed to authenticate with Grafana."))
    else Success(action)
  }

  /** The domain flag wins over configured credentials and a token: with
      `domain` set the entry's own login, password and token are ignored. */
  lemma DomainTakesPrecedence(a: AuthSettings, b: AuthSettings, wikiLogin: string, wikiPassword: string)
    requires a.auth && b.auth && a.domain && b.domain
    ensures ChooseAuth(a, wikiLogin, wikiPassword) == ChooseAuth(b, wikiLogin, wikiPassword)
  {
  }

  /** A token is used only when no complete login/password pair is set. */
  lemma TokenOnlyWithoutCredentials(a: AuthSettings, wikiLogin: string, wikiPassword: string)
    requires ChooseAuth(a, wikiLogin, wikiPassword).Success?
    requires ChooseAuth(a, wikiLogin, wikiPassword).value.BearerHeader?
    ensures a.auth && !a.domain && !(Truthy(a.login) && Truthy(a.password))
  {
  }
}

/**
 * backend/src/lib/constants.ts: the MongoDB connection string. The
 * environment is a parameter; an unset variable is `None`, and a template
 * literal renders it as `undefined`.
 */
module Constants {
  import opened Wrappers
  import opened Text

  datatype Env = Env(mongoUrl: Option<string>, dbUser: Option<string>, dbPass: Option<string>,
                     dbHost: Option<string>, dbPort: Option<string>, dbName: Option<string>)

  /** JavaScript truthiness of an environment variable: set and non-empty. */
  predicate Truthy(v: Option<string>) {
    v.Some? && v.value != ""
  }

  /** `${v}` in a template literal. */
  function Render(v: Option<string>): string {
    if v.None? then "undefined" else v.value
  }

  const Scheme := "mongodb://"
  const AuthSource := "?authSource=admin"

  /** `${DB_USER}:${DB_PASS}@` when DB_USER is truthy. */
  function Credentials(env: Env): string {
    if Truthy(env.dbUser) then env.dbUser.value + ":" + Render(env.dbPass) + "@" else ""
  }

  function HostPart(env: Env): string {
    Render(env.dbHost) + ":" + Render(env.dbPort) + "/" + Render(env.dbName)
  }

  function AuthSuffix(env: Env): string {
    if Truthy(env.dbUser) then AuthSource else ""
  }

  /** constants.ts:8-12. */
  function MongoUrl(env: Env): string {
    if Truthy(env.mongoUrl) then env.mongoUrl.value
    else Scheme + Credentials(env) + HostPart(env) + AuthSuffix(env)
  }

  /** No `@` and no `?` in a rendered variable. */
  predicate Plain(v: Option<string>) {
    '@' !in Render(v) && '?' !in Render(v)
  }

  /** A truthy MONGOURL is used verbatim, whatever else is set. */
  lemma MongoUrlOverride(env: Env)
    requires Truthy(env.mongoUrl)
    ensures MongoUrl(env) == env.mongoUrl.value
  {
  }

  lemma InAppend(c: char, a: string, b: string)
    ensures c in a + b <==> c in a || c in b
  {
    if c in a + b {
      var i :| 0 <= i < |a + b| && (a + b)[i] == c;
      if i >= |a| {
        assert b[i - |a|] == c;
      }
    }
    if c in b {
      var i :| 0 <= i < |b| && b[i] == c;
      assert (a + b)[|a| + i] == c;
    }
  }

  lemma HostPartPlain(env: Env, c: char)
    requires c == '@' || c == '?'
    requires Plain(env.dbHost) && Plain(env.dbPort) && Plain(env.dbName)
    ensures c !in HostPart(env)
  {
    InAppend(c, Render(env.dbHost), ":");
    InAppend(c, Render(env.dbHost) + ":", Render(env.dbPort));
    InAppend(c, Render(env.dbHost) + ":" + Render(env.dbPort), "/");
    InAppend(c, Render(env.dbHost) + ":" + Render(env.dbPort) + "/", Render(env.dbName));
  }

  /** The credentials are present exactly when DB_USER is truthy, and then end in `@`. */
  lemma CredentialsShape(env: Env)
    ensures Truthy(env.dbUser) <==> Credentials(env) != ""
    ensures Truthy(env.dbUser) ==> '@' in Credentials(env)
  {
    if Truthy(env.dbUser) {
      assert Credentials(env)[|Credentials(env)| - 1] == '@';
    }
  }

  /**
   * Otherwise the URL is `mongodb://`, then the credentials when DB_USER is
   * truthy, then `host:port/name`, for every environment. Credentials and
   * the authSource option come together, and when host, port and name are
   * free of `@` and `?` those characters appear exactly when DB_USER is
   * truthy, whatever DB_USER and DB_PASS hold.
   */
  lemma MongoUrlAssembled(env: Env)
    requires !Truthy(env.mongoUrl)
    ensures var u := MongoUrl(env);
      && StartsWith(u, Scheme)
      && Contains(u, Render(env.dbHost) + ":" + Render(env.dbPort) + "/" + Render(env.dbName))
      && (Truthy(env.dbUser) ==> StartsWith(u, Scheme + env.dbUser.value + ":" + Render(env.dbPass) + "@"))
      && (Plain(env.dbHost) && Plain(env.dbPort) && Plain(env.dbName) ==>
            && ('@' in u <==> Truthy(env.dbUser))
            && ('?' in u <==> Truthy(env.dbUser)))
    ensures Truthy(env.dbUser) ==>
      MongoUrl(env) == Scheme + env.dbUser.value + ":" + Render(env.dbPass) + "@" + HostPart(env) + AuthSource
    ensures !Truthy(env.dbUser) ==> MongoUrl(env) == Scheme + HostPart(env)
  {
    MongoUrlLayout(env);
    if Plain(env.dbHost) && Plain(env.dbPort) && Plain(env.dbName) {
      MongoUrlSeparators(env);
    }
  }

  /** With MONGOURL falsy, the URL is the scheme, the credentials, the host part and the option, in that order. */
  lemma MongoUrlLayout(env: Env)
    requires !Truthy(env.mongoUrl)
    ensures StartsWith(MongoUrl(env), Scheme)
    ensures Contains(MongoUrl(env), Render(env.dbHost) + ":" + Render(env.dbPort) + "/" + Render(env.dbName))
    ensures Truthy(env.dbUser) ==>
      StartsWith(MongoUrl(env), Scheme + env.dbUser.value + ":" + Render(env.dbPass) + "@")
    ensures Truthy(env.dbUser) ==>
      MongoUrl(env) == Scheme + env.dbUser.value + ":" + Render(env.dbPass) + "@" + HostPart(env) + AuthSource
    ensures !Truthy(env.dbUser) ==> MongoUrl(env) == Scheme + HostPart(env)
  {
    var u := MongoUrl(env);
    var head := Scheme + Credentials(env);
    assert u == head + HostPart(env) + AuthSuffix(env);
    assert u[..|Scheme|] == Scheme;
    assert u[..|head|] == head;
    ContainsWhole(head, HostPart(env), AuthSuffix(env));
    if Truthy(env.dbUser) {
      assert head == Scheme + env.dbUser.value + ":" + Render(env.dbPass) + "@";
    } else {
      assert head == Scheme && AuthSuffix(env) == "";
    }
  }

  /** `@` and `?` come only from the credentials and the authSource option. */
  lemma MongoUrlSeparators(env: Env)
    requires !Truthy(env.mongoUrl)
    requires Plain(env.dbHost) && Plain(env.dbPort) && Plain(env.dbName)
    ensures '@' in MongoUrl(env) <==> Truthy(env.dbUser)
    ensures '?' in MongoUrl(env) <==> Truthy(env.dbUser)
  {
    var head := Scheme + Credentials(env);
    assert MongoUrl(env) == head + HostPart(env) + AuthSuffix(env);
    HostPartPlain(env, '@');
    HostPartPlain(env, '?');
    CredentialsShape(env);
    assert '@' !in Scheme && '?' !in Scheme;
    InAppend('@', Scheme, Credentials(env));
    InAppend('@', head, HostPart(env));
    InAppend('@', head + HostPart(env), AuthSuffix(env));
    InAppend('?', head + HostPart(env), AuthSuffix(env));
    if Truthy(env.dbUser) {
      assert AuthSuffix(env)[0] == '?';
    } else {
      assert Credentials(env) == "" && AuthSuffix(env) == "";
      InAppend('?', Scheme, Credentials(env));
      InAppend('?', head, HostPart(env));
    }
  }

  /** With nothing set, every part renders as `undefined`. */
  lemma MongoUrlUnset()
    ensures MongoUrl(Env(None, None, None, None, None, None))
         == Scheme + "undefined" + ":" + "undefined" + "/" + "undefined"
  {
  }
}

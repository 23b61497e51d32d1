/** The database URI the backend configures from the `DATABASE_URL`
    environment variable (app.py:28-36): the `postgres://` and
    `postgresql://` schemes are rewritten to the psycopg 3 driver scheme, and
    an unset or empty variable falls back to a local SQLite file. */
module Config {
  import opened Common
  import opened Text

  const PostgresScheme := "postgres://"
  const PostgresqlScheme := "postgresql://"
  const PsycopgScheme := "postgresql+psycopg://"
  const FallbackUri := "sqlite:///hotel.db"

  /** The rewrite applied to a non-empty `DATABASE_URL`. */
  function RewriteScheme(url: string): string {
    if StartsWith(url, PostgresScheme) then ReplaceOnce(url, PostgresScheme, PsycopgScheme)
    else if StartsWith(url, PostgresqlScheme) then ReplaceOnce(url, PostgresqlScheme, PsycopgScheme)
    else url
  }

  /** `SQLALCHEMY_DATABASE_URI` for the environment value `env`. */
  function DatabaseUri(env: Option<string>): (uri: string)
    ensures env.None? || env == Some("") ==> uri == FallbackUri
    ensures env.Some? && StartsWith(env.value, PostgresScheme) ==>
      uri == PsycopgScheme + env.value[|PostgresScheme|..]
    ensures env.Some? && StartsWith(env.value, PostgresqlScheme) ==>
      uri == PsycopgScheme + env.value[|PostgresqlScheme|..]
    ensures (env.Some? && env.value != "" && !StartsWith(env.value, PostgresScheme)
             && !StartsWith(env.value, PostgresqlScheme)) ==> uri == env.value
  {
    if env.None? || env.value == "" then FallbackUri
    else if StartsWith(env.value, PostgresScheme) then
      ReplaceOnceAtPrefix(env.value, PostgresScheme, PsycopgScheme);
      SchemesDisjoint(env.value);
      RewriteScheme(env.value)
    else
      if StartsWith(env.value, PostgresqlScheme) then
        ReplaceOnceAtPrefix(env.value, PostgresqlScheme, PsycopgScheme);
        RewriteScheme(env.value)
      else RewriteScheme(env.value)
  }

  /** The two source schemes exclude each other: a `postgresql://` URL does
      not start with `postgres://`, since their ninth characters differ. */
  lemma SchemesDisjoint(url: string)
    ensures StartsWith(url, PostgresqlScheme) ==> !StartsWith(url, PostgresScheme)
  {
    if StartsWith(url, PostgresqlScheme) {
      assert url[8] == PostgresqlScheme[8] == 'q';
    }
  }

  /** A URI with the psycopg scheme, or the SQLite fallback, is left alone
      by the rewrite. */
  lemma NotRewritten(uri: string)
    requires StartsWith(uri, PsycopgScheme) || uri == FallbackUri
    ensures !StartsWith(uri, PostgresScheme) && !StartsWith(uri, PostgresqlScheme)
  {
    if StartsWith(uri, PsycopgScheme) {
      assert uri[8] == PsycopgScheme[8] == 'q';
      assert uri[10] == PsycopgScheme[10] == '+';
    } else {
      assert uri[0] == 's';
    }
  }

  /** Configuring from an already configured URI changes nothing: the
      rewritten scheme is matched by neither rewrite. */
  lemma DatabaseUriIdempotent(env: Option<string>)
    ensures DatabaseUri(Some(DatabaseUri(env))) == DatabaseUri(env)
  {
    var uri := DatabaseUri(env);
    if env.None? || env.value == "" {
      NotRewritten(uri);
    } else if StartsWith(env.value, PostgresScheme) {
      assert uri[..|PsycopgScheme|] == PsycopgScheme;
      NotRewritten(uri);
    } else if StartsWith(env.value, PostgresqlScheme) {
      assert uri[..|PsycopgScheme|] == PsycopgScheme;
      NotRewritten(uri);
    }
  }
}

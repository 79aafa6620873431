/**
 * How `config.py` chooses the application's base directory and the
 * SQLAlchemy database URI. Whether the production directory exists, the
 * directory of the configuration file, and the environment (after the
 * `.env` file is loaded) are parameters.
 *
 * The base directory is absolute, so the URIs built as "sqlite:////" plus
 * a path joined onto it carry five slashes; SQLite then opens a path
 * starting with "//", which POSIX resolves like a single "/".
 */
module Config {
  import opened Models
  import opened Strings

  /** The production installation directory. */
  const ProductionDir: string := "/var/www/asistencia-informatica"

  const UriVariable: string := "SQLALCHEMY_DATABASE_URI"
  const UrlVariable: string := "DATABASE_URL"

  /** The prefix of a SQLite URI, and the prefix of one whose path is absolute. */
  const SqlitePrefix: string := "sqlite:///"
  const SqliteAbsolutePrefix: string := "sqlite:////"

  /** `base_dir`: the production directory when it exists, otherwise the configuration file's directory. */
  function BaseDir(productionExists: bool, configDir: string): (r: string)
    ensures productionExists ==> r == ProductionDir
    ensures !productionExists ==> r == configDir
  {
    if productionExists then ProductionDir else configDir
  }

  /** A POSIX path that starts at the root. */
  predicate IsAbsolute(path: string)
  {
    path != [] && path[0] == '/'
  }

  /**
   * `os.path.join(a, b)` on POSIX: an absolute `b` replaces `a`; otherwise
   * `b` is appended after a separating '/' unless `a` is empty or already
   * ends with one.
   */
  function PathJoin(a: string, b: string): (r: string)
    ensures IsAbsolute(b) ==> r == b
    ensures !IsAbsolute(b) ==> StartsWith(r, a) && |b| <= |r| && r[|r| - |b|..] == b
    ensures !IsAbsolute(b) && a != [] && a[|a| - 1] != '/' ==> r == a + "/" + b
  {
    if IsAbsolute(b) then b
    else if a == [] || a[|a| - 1] == '/' then a + b
    else a + "/" + b
  }

  /** `os.environ.get(name)`. */
  function EnvGet(env: map<string, string>, name: string): (r: Option<string>)
    ensures r.Some? <==> name in env
  {
    Lookup(env, name)
  }

  /** The URI names a SQLite file by a relative path (three slashes, not four). */
  predicate RelativeSqlite(uri: string)
  {
    StartsWith(uri, SqlitePrefix) && !StartsWith(uri, SqliteAbsolutePrefix)
  }

  /** `db_path`: `instance/site.db` under the base directory. */
  function DefaultDbPath(baseDir: string): string
  {
    PathJoin(PathJoin(baseDir, "instance"), "site.db")
  }

  /**
   * `SQLALCHEMY_DATABASE_URI`: a relative SQLite URI from the environment
   * is rewritten under the base directory; otherwise the first non-empty of
   * `SQLALCHEMY_DATABASE_URI` and `DATABASE_URL` is used as it is, and
   * without either the default file under the base directory.
   */
  function DatabaseUri(env: map<string, string>, baseDir: string): (r: string)
    ensures var uri := EnvGet(env, UriVariable);
            Truthy(uri) && RelativeSqlite(uri.value) ==>
              StartsWith(r, SqliteAbsolutePrefix) && r[|SqliteAbsolutePrefix|..] == PathJoin(baseDir, ReplaceAll(uri.value, SqlitePrefix, ""))
    ensures var uri := EnvGet(env, UriVariable);
            Truthy(uri) && !RelativeSqlite(uri.value) ==> r == uri.value
    ensures !Truthy(EnvGet(env, UriVariable)) && Truthy(EnvGet(env, UrlVariable)) ==> r == env[UrlVariable]
    ensures !Truthy(EnvGet(env, UriVariable)) && !Truthy(EnvGet(env, UrlVariable)) ==>
              r == SqliteAbsolutePrefix + DefaultDbPath(baseDir)
  {
    var uri := EnvGet(env, UriVariable);
    if Truthy(uri) && RelativeSqlite(uri.value) then
      var relPath := ReplaceAll(uri.value, SqlitePrefix, "");
      SqliteAbsolutePrefix + PathJoin(baseDir, relPath)
    else if Truthy(uri) then uri.value
    else
      var url := EnvGet(env, UrlVariable);
      if Truthy(url) then url.value else SqliteAbsolutePrefix + DefaultDbPath(baseDir)
  }

  /**
   * A relative SQLite URI with no second "sqlite:///" in it becomes
   * "sqlite:////" followed by the base directory joined with its path.
   */
  lemma RelativeUriRewritten(env: map<string, string>, baseDir: string, path: string)
    requires UriVariable in env && env[UriVariable] == SqlitePrefix + path
    requires !IsAbsolute(path) && !Contains(path, SqlitePrefix)
    ensures DatabaseUri(env, baseDir) == SqliteAbsolutePrefix + PathJoin(baseDir, path)
  {
    var uri := env[UriVariable];
    assert StartsWith(uri, SqlitePrefix) by {
      assert uri[..|SqlitePrefix|] == SqlitePrefix;
    }
    assert !StartsWith(uri, SqliteAbsolutePrefix) by {
      if path != [] {
        assert uri[|SqlitePrefix|] == path[0];
      }
    }
    assert ReplaceAll(uri, SqlitePrefix, "") == path by {
      ReplaceAllFront(SqlitePrefix, path, "");
      ReplaceAllNoOccurrence(path, SqlitePrefix, "");
    }
  }

  /** The 's' that starts "sqlite:///" does not recur inside it. */
  lemma PrefixStartsOnce()
    ensures SqlitePrefix[0] !in SqlitePrefix[1..]
  {
    assert SqlitePrefix[1..] == "qlite:///";
  }

  /**
   * `replace` removes every "sqlite:///", not only the scheme: for any two
   * path pieces free of it, a second one between them disappears too.
   */
  lemma ReplaceRemovesInnerOccurrence(a: string, b: string)
    requires !Contains(a, SqlitePrefix) && !Contains(b, SqlitePrefix)
    ensures ReplaceAll(SqlitePrefix + (a + SqlitePrefix + b), SqlitePrefix, "") == a + b
  {
    PrefixStartsOnce();
    RemoveBothOccurrences(SqlitePrefix, a, b);
  }

  /** The default database file under the production directory, as a URI. */
  lemma ProductionDbUri()
    ensures SqliteAbsolutePrefix + DefaultDbPath(ProductionDir)
         == SqliteAbsolutePrefix + ProductionDir + "/instance" + "/site.db"
  {
    var instance := PathJoin(ProductionDir, "instance");
    assert ProductionDir[|ProductionDir| - 1] == 'a';
    assert instance == ProductionDir + "/" + "instance";
    assert instance == ProductionDir + "/instance";
    assert instance[|instance| - 1] == 'e';
    assert DefaultDbPath(ProductionDir) == instance + "/" + "site.db";
    assert DefaultDbPath(ProductionDir) == instance + "/site.db";
  }

  /** With neither variable set, the database is `instance/site.db` under the production directory. */
  lemma DefaultInProduction(env: map<string, string>, configDir: string)
    requires UriVariable !in env && UrlVariable !in env
    ensures DatabaseUri(env, BaseDir(true, configDir))
         == SqliteAbsolutePrefix + ProductionDir + "/instance" + "/site.db"
  {
    ProductionDbUri();
    assert DatabaseUri(env, ProductionDir) == SqliteAbsolutePrefix + DefaultDbPath(ProductionDir);
  }

  /** An empty `SQLALCHEMY_DATABASE_URI` counts as unset: `DATABASE_URL` is used. */
  lemma EmptyUriFallsBack(env: map<string, string>, baseDir: string)
    requires UriVariable in env && env[UriVariable] == ""
    requires UrlVariable in env && env[UrlVariable] != ""
    ensures DatabaseUri(env, baseDir) == env[UrlVariable]
  {
  }
}

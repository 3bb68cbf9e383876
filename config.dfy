/** The library's configuration helpers: the raw-content URL derived from
    the dataset URL (`get_raw_url`), the checks of `set_dataset_url` and
    `set_cache_timeout`, and the choice of the latest version in
    `load_versions`. */
module Config {
  import opened Base
  import opened Strings

  /** The dataset repository the library points at unless configured
      otherwise. */
  const DefaultDatasetUrl := "https://github.com/superceccho/qsimbench-dataset"

  /** Thirty days, in seconds. */
  const DefaultCacheTimeout := 30 * 24 * 60 * 60

  /** DEFAULT_DATASET_URL: the environment's value when set, else the
      default repository, without trailing '/'. */
  function InitialDatasetUrl(env: Option<string>): (url: string)
    ensures url == [] || url[|url| - 1] != '/'
  {
    RStrip(env.GetOr(DefaultDatasetUrl), '/')
  }

  /** Unset, the dataset URL is the default repository unchanged; set, it
      is the environment's value without its trailing slashes. */
  lemma InitialDatasetUrlDefault(url: string)
    requires url == DefaultDatasetUrl
    ensures InitialDatasetUrl(None) == url
    ensures forall env: string :: InitialDatasetUrl(Some(env)) == RStrip(env, '/')
  {
    assert url[|url| - 1] == 't';
  }

  /** DEFAULT_CACHE_TIMEOUT: the environment's value when set, else thirty
      days. */
  function InitialCacheTimeout(env: Option<int>): (t: int)
    ensures env.None? ==> t == 2592000
    ensures env.Some? ==> t == env.value
  {
    env.GetOr(DefaultCacheTimeout)
  }

  /** get_raw_url: owner and repository are the last two '/'-separated
      segments of the dataset URL (for a URL without any '/', Python's
      index -1 makes the only segment both). */
  function RawUrlOf(datasetUrl: string): (raw: string)
    ensures StartsWith(raw, "https://raw.githubusercontent.com/")
    ensures |raw| >= 24 && raw[|raw| - 24..] == "/refs/heads/main/dataset"
  {
    var parts := Split(datasetUrl, '/');
    var owner := if |parts| >= 2 then parts[|parts| - 2] else parts[0];
    var repo := parts[|parts| - 1];
    "https://raw.githubusercontent.com/" + owner + "/" + repo + "/refs/heads/main/dataset"
  }

  /** Whatever comes before them, the raw URL is built from the owner and
      the repository at the end of the dataset URL. */
  lemma RawUrlOfSegments(base: string, owner: string, repo: string)
    requires '/' !in owner && '/' !in repo
    ensures RawUrlOf(base + "/" + owner + "/" + repo)
         == "https://raw.githubusercontent.com/" + owner + "/" + repo + "/refs/heads/main/dataset"
  {
    SplitSnoc(base, '/', owner);
    assert base + "/" + owner + "/" + repo == (base + ['/'] + owner) + ['/'] + repo;
    SplitSnoc(base + ['/'] + owner, '/', repo);
  }

  /** The default dataset gives the raw URL of its own repository. */
  lemma DefaultRawUrl(url: string, base: string, owner: string, repo: string)
    requires url == DefaultDatasetUrl
    requires base == "https://github.com" && owner == "superceccho" && repo == "qsimbench-dataset"
    ensures RawUrlOf(url)
         == "https://raw.githubusercontent.com/" + owner + "/" + repo + "/refs/heads/main/dataset"
  {
    DefaultUrlPieces(url, base, owner, repo);
    RawUrlOfSegments(base, owner, repo);
  }

  lemma DefaultUrlPieces(url: string, base: string, owner: string, repo: string)
    requires url == DefaultDatasetUrl
    requires base == "https://github.com" && owner == "superceccho" && repo == "qsimbench-dataset"
    ensures url == base + "/" + owner + "/" + repo && '/' !in owner && '/' !in repo
  {
  }

  predicate HasScheme(url: string)
  {
    StartsWith(url, "http://") || StartsWith(url, "https://")
  }

  /** The check and normalisation of set_dataset_url: the URL must start
      with http:// or https://, and every trailing '/' is dropped. */
  function CheckDatasetUrl(url: string): (r: Result<string>)
    ensures r.Ok? <==> HasScheme(url)
    ensures r.Err? ==> r.error == BadDatasetUrl
    ensures r.Ok? ==> |r.value| <= |url| && url[..|r.value|] == r.value
    ensures r.Ok? ==> (r.value == [] || r.value[|r.value| - 1] != '/')
    ensures r.Ok? ==> forall i | |r.value| <= i < |url| :: url[i] == '/'
  {
    if !HasScheme(url) then Err(BadDatasetUrl) else Ok(RStrip(url, '/'))
  }

  /** A URL with something after its scheme other than slashes keeps its
      scheme. */
  lemma CheckKeepsScheme(url: string, scheme: string, i: nat)
    requires scheme == "http://" || scheme == "https://"
    requires StartsWith(url, scheme) && |scheme| <= i < |url| && url[i] != '/'
    ensures CheckDatasetUrl(url).Ok? && StartsWith(CheckDatasetUrl(url).value, scheme)
  {
    var v := CheckDatasetUrl(url).value;
    assert |v| > i;
    assert v[..|scheme|] == url[..|scheme|];
  }

  /** Normalising an accepted URL a second time changes nothing. */
  lemma CheckIdempotent(url: string, scheme: string, i: nat)
    requires scheme == "http://" || scheme == "https://"
    requires StartsWith(url, scheme) && |scheme| <= i < |url| && url[i] != '/'
    ensures CheckDatasetUrl(CheckDatasetUrl(url).value) == CheckDatasetUrl(url)
  {
    CheckKeepsScheme(url, scheme, i);
  }

  /** The check of set_cache_timeout: a negative timeout is refused, zero
      (never serve from the cache) is accepted. */
  function CheckCacheTimeout(timeout: int): (r: Result<nat>)
    ensures r.Ok? <==> timeout >= 0
    ensures r.Ok? ==> r.value == timeout
    ensures r.Err? ==> r.error == BadCacheTimeout
  {
    if timeout < 0 then Err(BadCacheTimeout) else Ok(timeout)
  }

  /** load_versions' pick: the last version listed; none is an error. */
  function LatestVersion(versions: seq<string>): (r: Result<string>)
    ensures r.Ok? <==> versions != []
    ensures r.Ok? ==> r.value in versions
    ensures r.Ok? ==> r.value == versions[|versions| - 1]
    ensures r.Err? ==> r.error == NoVersions
  {
    if versions == [] then Err(NoVersions) else Ok(versions[|versions| - 1])
  }

  /** Appending a version makes it the latest. */
  lemma LatestAfterAppend(versions: seq<string>, v: string)
    ensures LatestVersion(versions + [v]) == Ok(v)
  {
  }
}

/** The public sampling entry point `get_outcomes` and the pieces around
    it: the request naming and checks of `_get_data`, the fetch of every
    requested version in order, the choice of strategy, and the exact trim;
    plus the library's mutable configuration (`set_dataset_url`,
    `set_cache_timeout`, `load_versions`).

    The network is the parameter `net`, mapping a URL to what a GET of it
    returns; the clock is `now`; json.loads / json.dumps of one record are
    `parse` / `dump`. The two random generators are the oracles `draws`
    (the indices rng.choice picks) and `sampled` (the keys rng.choices
    picks). */
module Outcomes {
  import opened Base
  import opened Strings
  import opened Histogram
  import opened Sampling
  import opened Cache
  import opened Config

  /** Where one history file lives: its URL on the raw host and its path
      under the cache directory. */
  datatype Target = Target(url: string, path: string)

  predicate ValidKind(kind: string)
  {
    kind == "circuit" || kind == "mirror"
  }

  /** f"{alg}_{size}_{be}.jsonl" with algorithm and backend lower-cased. */
  function HistoryFile(algorithm: string, size: int, backend: string): string
  {
    Lower(algorithm) + "_" + IntToString(size) + "_" + Lower(backend) + ".jsonl"
  }

  /** The lower-cased algorithm and '_' start a history file name, .jsonl
      ends it, and it has no upper-case letter. */
  lemma HistoryFileShape(algorithm: string, size: int, backend: string)
    ensures var file := HistoryFile(algorithm, size, backend);
      && StartsWith(file, Lower(algorithm) + "_")
      && |file| >= 6 && file[|file| - 6..] == ".jsonl"
      && forall i | 0 <= i < |file| :: !('A' <= file[i] <= 'Z')
  {
    var file := HistoryFile(algorithm, size, backend);
    var d := IntToString(size);
    var la, lb := Lower(algorithm), Lower(backend);
    assert file == la + ("_" + d + "_" + lb + ".jsonl");
    assert forall i | 0 <= i < |d| :: d[i] == '-' || IsDigit(d[i]);
    LowerCases(algorithm);
    LowerCases(backend);
  }

  /** The checks of _get_data, then the URL and the cache path of the
      history file it reads. */
  function Request(algorithm: string, size: int, backend: string, version: string, circuitKind: string,
                   rawUrl: string, cacheDir: string): (r: Result<Target>)
    ensures r.Err? <==> algorithm == [] || size <= 0 || backend == [] || !ValidKind(Lower(circuitKind))
    ensures r.Err? ==> r.error == if algorithm == [] || size <= 0 || backend == [] then InvalidRequest else InvalidKind
  {
    if algorithm == [] || size <= 0 || backend == [] then Err(InvalidRequest)
    else
      var kind := Lower(circuitKind);
      if !ValidKind(kind) then Err(InvalidKind)
      else
        var file := HistoryFile(algorithm, size, backend);
        Ok(Target(rawUrl + "/" + version + "/histories/" + kind + "/" + file,
                  cacheDir + "/" + version + "/" + kind + "/" + file))
  }

  /** A valid request reads RAW_URL/version/histories/kind/file and caches
      it at CACHE_DIR/version/kind/file, kind lower-cased, with the same
      file name in both. */
  lemma RequestTarget(algorithm: string, size: int, backend: string, version: string, circuitKind: string,
                      rawUrl: string, cacheDir: string)
    requires algorithm != [] && size > 0 && backend != [] && ValidKind(Lower(circuitKind))
    ensures var r := Request(algorithm, size, backend, version, circuitKind, rawUrl, cacheDir);
      var file := HistoryFile(algorithm, size, backend);
      var kind := Lower(circuitKind);
      && r.Ok?
      && r.value.url == rawUrl + "/" + version + "/histories/" + kind + "/" + file
      && r.value.path == cacheDir + "/" + version + "/" + kind + "/" + file
  {
  }

  /** Names that differ only in case ask for the same file. */
  lemma RequestIgnoresCase(algorithm: string, algorithm': string, size: int, backend: string, backend': string,
                           version: string, circuitKind: string, circuitKind': string,
                           rawUrl: string, cacheDir: string)
    requires Lower(algorithm) == Lower(algorithm') && Lower(backend) == Lower(backend')
    requires Lower(circuitKind) == Lower(circuitKind')
    ensures Request(algorithm, size, backend, version, circuitKind, rawUrl, cacheDir)
         == Request(algorithm', size, backend', version, circuitKind', rawUrl, cacheDir)
  {
    assert |algorithm| == |Lower(algorithm)| == |algorithm'|;
    assert |backend| == |Lower(backend)| == |backend'|;
  }

  /** The kind is matched without regard to case: "Mirror" is the mirror
      kind. */
  lemma KindIsFolded(circuitKind: string)
    requires circuitKind == "Mirror"
    ensures ValidKind(Lower(circuitKind))
  {
    assert Lower(circuitKind) == "mirror";
  }

  // ---------------------------------------------------------------------
  // Fetching the records of every version

  /** One call of _get_data on the disk `disk`. */
  function DataSpec(disk: Disk, req: Result<Target>, force: bool, now: int, timeout: int,
                    net: string -> Fetch<string>, parse: string -> Record, dump: Record -> string): Served<Record>
  {
    match req
    case Err(e) => Served(Err(e), disk, false)
    case Ok(t) => Download(disk, t.path, force, now, timeout, net(t.url), parse, dump)
  }

  /** An invalid request fails with its own error and touches nothing; a
      valid one changes the disk at its own cache path only. */
  lemma DataSpecFrame(disk: Disk, req: Result<Target>, force: bool, now: int, timeout: int,
                      net: string -> Fetch<string>, parse: string -> Record, dump: Record -> string)
    ensures var s := DataSpec(disk, req, force, now, timeout, net, parse, dump);
      && (req.Err? ==> s.result == Err(req.error) && s.disk == disk && !s.fetched)
      && (req.Ok? ==> s.disk.Keys <= disk.Keys + {req.value.path})
      && (req.Ok? ==> forall p | p in disk && p != req.value.path :: p in s.disk && s.disk[p] == disk[p])
  {
  }

  /** The URLs that call requested. */
  function UrlsOf(req: Result<Target>, s: Served<Record>): seq<string>
  {
    if s.fetched && req.Ok? then [req.value.url] else []
  }

  /** The outcome of fetching a list of versions: the concatenated records
      or the first error, the disk after it, and the URLs requested. */
  datatype Gathered = Gathered(result: Result<seq<Record>>, disk: Disk, urls: seq<string>)

  /** The query get_outcomes passes on to _get_data for every version. */
  datatype Query = Query(algorithm: string, size: int, backend: string, circuitKind: string, force: bool)

  /** The configuration _get_data reads. */
  datatype Settings = Settings(rawUrl: string, cacheDir: string, timeout: int)

  function RequestOf(q: Query, version: string, cfg: Settings): Result<Target>
  {
    Request(q.algorithm, q.size, q.backend, version, q.circuitKind, cfg.rawUrl, cfg.cacheDir)
  }

  /** `for version in versions: data.extend(_get_data(...))`, as a fold
      over the versions in order; the first failing version ends it. */
  function Gather(disk: Disk, versions: seq<string>, q: Query, cfg: Settings, now: int,
                  net: string -> Fetch<string>, parse: string -> Record, dump: Record -> string): Gathered
  {
    if versions == [] then Gathered(Ok([]), disk, [])
    else
      var g := Gather(disk, versions[..|versions| - 1], q, cfg, now, net, parse, dump);
      if g.result.Err? then g
      else
        var req := RequestOf(q, versions[|versions| - 1], cfg);
        var s := DataSpec(g.disk, req, q.force, now, cfg.timeout, net, parse, dump);
        Gathered(if s.result.Ok? then Ok(g.result.value + s.result.value) else s.result,
                 s.disk, g.urls + UrlsOf(req, s))
  }

  /** At most one request per version, and a fetch that succeeds had a
      valid request for every version. */
  lemma {:induction false} GatherBounds(disk: Disk, versions: seq<string>, q: Query, cfg: Settings, now: int,
                                        net: string -> Fetch<string>, parse: string -> Record, dump: Record -> string)
    ensures var g := Gather(disk, versions, q, cfg, now, net, parse, dump);
      && |g.urls| <= |versions|
      && (g.result.Ok? ==> forall i | 0 <= i < |versions| :: RequestOf(q, versions[i], cfg).Ok?)
  {
    if versions != [] {
      var init := versions[..|versions| - 1];
      GatherBounds(disk, init, q, cfg, now, net, parse, dump);
      assert forall i | 0 <= i < |init| :: init[i] == versions[i];
    }
  }

  /** One more version after a successful prefix: its request, its call
      and the records appended. */
  lemma GatherNext(disk: Disk, versions: seq<string>, i: nat, q: Query, cfg: Settings, now: int,
                   net: string -> Fetch<string>, parse: string -> Record, dump: Record -> string)
    requires i < |versions|
    requires Gather(disk, versions[..i], q, cfg, now, net, parse, dump).result.Ok?
    ensures var g := Gather(disk, versions[..i], q, cfg, now, net, parse, dump);
      var req := RequestOf(q, versions[i], cfg);
      var s := DataSpec(g.disk, req, q.force, now, cfg.timeout, net, parse, dump);
      Gather(disk, versions[..i + 1], q, cfg, now, net, parse, dump)
        == Gathered(if s.result.Ok? then Ok(g.result.value + s.result.value) else s.result,
                    s.disk, g.urls + UrlsOf(req, s))
  {
    assert versions[..i + 1][..i] == versions[..i];
  }

  /** Once the versions up to n have failed, the rest are not fetched. */
  lemma {:induction false} GatherErrPersists(disk: Disk, versions: seq<string>, n: nat, q: Query, cfg: Settings, now: int,
                                             net: string -> Fetch<string>, parse: string -> Record, dump: Record -> string)
    requires n <= |versions| && Gather(disk, versions[..n], q, cfg, now, net, parse, dump).result.Err?
    ensures Gather(disk, versions, q, cfg, now, net, parse, dump) == Gather(disk, versions[..n], q, cfg, now, net, parse, dump)
    decreases |versions| - n
  {
    if n < |versions| {
      assert versions[..n + 1][..n] == versions[..n];
      GatherErrPersists(disk, versions, n + 1, q, cfg, now, net, parse, dump);
    } else {
      assert versions[..n] == versions;
    }
  }

  /** Fetching two lists of versions one after the other is fetching their
      concatenation: the records are concatenated in version order, the
      second list starts from the disk the first left behind, and the
      requests follow each other. */
  lemma {:induction false} GatherAppend(disk: Disk, vs1: seq<string>, vs2: seq<string>, q: Query, cfg: Settings, now: int,
                                        net: string -> Fetch<string>, parse: string -> Record, dump: Record -> string)
    ensures var g1 := Gather(disk, vs1, q, cfg, now, net, parse, dump);
      var g := Gather(disk, vs1 + vs2, q, cfg, now, net, parse, dump);
      var g2 := Gather(g1.disk, vs2, q, cfg, now, net, parse, dump);
      && (g1.result.Err? ==> g == g1)
      && (g1.result.Ok? ==>
            && g.disk == g2.disk && g.urls == g1.urls + g2.urls
            && g.result == (if g2.result.Ok? then Ok(g1.result.value + g2.result.value) else g2.result))
    decreases |vs2|
  {
    if vs2 == [] {
      var g1 := Gather(disk, vs1, q, cfg, now, net, parse, dump);
      assert vs1 + vs2 == vs1;
      assert g1.urls + [] == g1.urls;
      if g1.result.Ok? {
        assert g1.result.value + [] == g1.result.value;
      }
    } else {
      var g1 := Gather(disk, vs1, q, cfg, now, net, parse, dump);
      var init, last := vs2[..|vs2| - 1], vs2[|vs2| - 1];
      assert (vs1 + vs2)[..|vs1 + vs2| - 1] == vs1 + init;
      assert (vs1 + vs2)[|vs1 + vs2| - 1] == last;
      GatherAppend(disk, vs1, init, q, cfg, now, net, parse, dump);
      if g1.result.Ok? {
        var gi := Gather(g1.disk, init, q, cfg, now, net, parse, dump);
        var ga := Gather(disk, vs1 + init, q, cfg, now, net, parse, dump);
        assert ga.disk == gi.disk && ga.urls == g1.urls + gi.urls;
        if gi.result.Ok? {
          var req := RequestOf(q, last, cfg);
          var s := DataSpec(gi.disk, req, q.force, now, cfg.timeout, net, parse, dump);
          assert DataSpec(ga.disk, req, q.force, now, cfg.timeout, net, parse, dump) == s;
          assert g1.urls + gi.urls + UrlsOf(req, s) == g1.urls + (gi.urls + UrlsOf(req, s));
          if s.result.Ok? {
            SeqAssoc(g1.result.value, gi.result.value, s.result.value);
          }
        }
      }
    }
  }

  lemma SeqAssoc(a: seq<Record>, b: seq<Record>, c: seq<Record>)
    ensures a + b + c == a + (b + c)
  {
  }

  /** A request that fails its checks fails on the first version, before
      anything is fetched. */
  lemma {:induction false} GatherInvalidRequest(disk: Disk, versions: seq<string>, q: Query, cfg: Settings, now: int,
                                                net: string -> Fetch<string>, parse: string -> Record, dump: Record -> string)
    requires versions != [] && RequestOf(q, versions[0], cfg).Err?
    ensures Gather(disk, versions, q, cfg, now, net, parse, dump)
         == Gathered(Err(RequestOf(q, versions[0], cfg).error), disk, [])
  {
    assert versions[..1][..0] == [];
    GatherErrPersists(disk, versions, 1, q, cfg, now, net, parse, dump);
  }

  // ---------------------------------------------------------------------
  // Sampling

  /** The draw oracle fits the trim: `shots` keys, each of the aggregate. */
  predicate Fits(agg: Hist, shots: int, sampled: seq<string>)
  {
    |sampled| == shots && forall i | 0 <= i < |sampled| :: sampled[i] in agg
  }

  /** The exact gate and _multinomial_sample: the aggregate is trimmed to
      exactly `shots` only when exact is asked for and the run overshot;
      otherwise it is returned as it is, short or long. */
  ghost function Trim(agg: Hist, total: int, shots: int, exact: bool, sampled: seq<string>): (r: Result<Hist>)
    ensures r.Err? ==> exact && total > shots
    ensures r.Err? ==> r.error == NoCounts || r.error == OracleInvalid
  {
    if !(exact && total > shots) then Ok(agg)
    else if Total(agg) <= 0 then Err(NoCounts)
    else if !Fits(agg, shots, sampled) then Err(OracleInvalid)
    else Ok(Tally(sampled))
  }

  /** What the exact gate promises: a trimmed result sums to exactly
      `shots` using only outcomes of the aggregate; an untrimmed one is the
      aggregate itself. */
  lemma TrimProperties(agg: Hist, total: int, shots: int, exact: bool, sampled: seq<string>)
    ensures var r := Trim(agg, total, shots, exact, sampled);
      && (!(exact && total > shots) ==> r == Ok(agg))
      && (exact && total > shots && r.Ok? ==> Total(r.value) == shots && r.value.Keys <= agg.Keys)
      && (exact && total > shots ==> (r == Err(NoCounts) <==> Total(agg) <= 0))
  {
    if exact && total > shots && Total(agg) > 0 && Fits(agg, shots, sampled) {
      TallyTotal(sampled);
      assert forall b | b in Drawn(sampled) :: b in agg;
    }
  }

  /** The sequential branch and the exact gate, started from the cursors
      `cursors0` and leaving `cursors1`. */
  ghost predicate SequentialRun(data: seq<Record>, cursors0: map<CursorKey, nat>, cursors1: map<CursorKey, nat>,
                                key: CursorKey, shots: int, exact: bool, sampled: seq<string>,
                                steps: nat, r: Result<Hist>)
    requires |data| > 0
  {
    var s := StartOf(cursors0, key, |data|);
    var read := Cycle(data, s, steps);
    && steps > 0
    && ShotTotal(Cycle(data, s, steps - 1)) < shots <= ShotTotal(read)
    && cursors1 == cursors0[key := Pos(s, steps, |data|)]
    && r == Trim(Agg(read), ShotTotal(read), shots, exact, sampled)
  }

  /** The draw oracle fits the random branch: every index is a record,
      and there are enough draws to reach the target. */
  predicate DrawsFit(data: seq<Record>, draws: seq<nat>, shots: int)
  {
    (forall i | 0 <= i < |draws| :: draws[i] < |data|) && ShotTotal(Pick(data, draws)) >= shots
  }

  /** The random branch and the exact gate. */
  ghost predicate RandomRun(data: seq<Record>, draws: seq<nat>, shots: int, exact: bool, sampled: seq<string>,
                            steps: nat, r: Result<Hist>)
  {
    if !DrawsFit(data, draws, shots) then r == Err(OracleInvalid)
    else
      && 0 < steps <= |draws|
      && var read := Pick(data, draws[..steps]);
      && ShotTotal(Pick(data, draws[..steps - 1])) < shots <= ShotTotal(read)
      && r == Trim(Agg(read), ShotTotal(read), shots, exact, sampled)
  }

  /** _multinomial_sample behind the exact gate. An oracle that does not
      fit is reported only once the aggregate has been found to sum to
      more than zero. */
  method TrimTo(agg: Hist, total: int, shots: int, exact: bool, sampled: seq<string>) returns (r: Result<Hist>)
    requires shots > 0
    ensures r == Trim(agg, total, shots, exact, sampled)
  {
    if !(exact && total > shots) {
      return Ok(agg);
    }
    if Fits(agg, shots, sampled) {
      r := MultinomialSample(agg, shots, sampled);
    } else {
      var sum := SumCounts(agg);
      r := if sum <= 0 then Err(NoCounts) else Err(OracleInvalid);
    }
  }

  // ---------------------------------------------------------------------
  // The library's state

  /** The module-level state of the library: its configuration, the
      versions loaded, the on-disk cache and the cursor map. */
  class Client {
    var datasetUrl: string
    var rawUrl: string
    var cacheDir: string
    var cacheTimeout: int
    var versionsList: seq<string>
    var latest: string
    const store: Store
    const registry: CursorRegistry

    /** RAW_URL is always derived from DATASET_URL. */
    ghost predicate Valid()
      reads this
    {
      rawUrl == RawUrlOf(datasetUrl)
    }

    function SettingsOf(): Settings
      reads this
    {
      Settings(rawUrl, cacheDir, cacheTimeout)
    }

    /** The globals as the module sets them at import, before the first
        load of the versions: `datasetUrl0` is DEFAULT_DATASET_URL, which
        never ends in '/' (Config.InitialDatasetUrl), and the cache timeout
        comes from the environment (`timeoutEnv`) when set there, else
        thirty days. */
    constructor (datasetUrl0: string, cacheDir0: string, timeoutEnv: Option<int>, disk0: Disk)
      requires datasetUrl0 == [] || datasetUrl0[|datasetUrl0| - 1] != '/'
      ensures Valid()
      ensures datasetUrl == datasetUrl0
      ensures cacheDir == cacheDir0 && cacheTimeout == InitialCacheTimeout(timeoutEnv)
      ensures versionsList == [] && latest == ""
      ensures fresh(store) && fresh(registry)
      ensures store.disk == disk0 && store.requested == [] && registry.cursors == map[]
    {
      var url := datasetUrl0;
      datasetUrl := url;
      rawUrl := RawUrlOf(url);
      cacheDir := cacheDir0;
      cacheTimeout := InitialCacheTimeout(timeoutEnv);
      versionsList := [];
      latest := "";
      store := new Store(disk0);
      registry := new CursorRegistry();
    }

    /** load_versions: `resp` is what the GET of RAW_URL/versions.json
        returns, already decoded. An empty list is stored and then
        reported; `latest` keeps its old value then. */
    method LoadVersions(resp: Fetch<seq<string>>) returns (err: Option<Error>)
      modifies this
      ensures datasetUrl == old(datasetUrl) && rawUrl == old(rawUrl)
      ensures cacheDir == old(cacheDir) && cacheTimeout == old(cacheTimeout)
      ensures resp.Failed? ==> err == Some(HttpStatus(resp.status))
      ensures resp.Unreachable? ==> err == Some(Connection)
      ensures !resp.Got? ==> versionsList == old(versionsList) && latest == old(latest)
      ensures resp.Got? ==> versionsList == resp.body
      ensures resp.Got? && resp.body == [] ==> err == Some(NoVersions) && latest == old(latest)
      ensures resp.Got? && resp.body != [] ==> err == None && LatestVersion(resp.body) == Ok(latest)
    {
      match resp {
        case Failed(code) => return Some(HttpStatus(code));
        case Unreachable => return Some(Connection);
        case Got(list) =>
          versionsList := list;
          match LatestVersion(list) {
            case Err(e) => return Some(e);
            case Ok(v) =>
              latest := v;
              return None;
          }
      }
    }

    /** set_dataset_url: the URL is checked and stored, RAW_URL derived
        from it, the repository tree fetched (`content`) and the versions
        loaded (`versionsResp`). A failure after the check leaves the new
        URL in place. */
    method SetDatasetUrl(url: string, content: Fetch<()>, versionsResp: Fetch<seq<string>>) returns (err: Option<Error>)
      requires Valid()
      modifies this
      ensures Valid()
      ensures cacheDir == old(cacheDir) && cacheTimeout == old(cacheTimeout)
      ensures !HasScheme(url) ==>
        err == Some(BadDatasetUrl) && datasetUrl == old(datasetUrl) && versionsList == old(versionsList) && latest == old(latest)
      ensures HasScheme(url) ==> Ok(datasetUrl) == CheckDatasetUrl(url)
      ensures HasScheme(url) && content.Failed? ==>
        err == Some(HttpStatus(content.status)) && versionsList == old(versionsList) && latest == old(latest)
      ensures HasScheme(url) && content.Unreachable? ==>
        err == Some(Connection) && versionsList == old(versionsList) && latest == old(latest)
      ensures HasScheme(url) && content.Got? && versionsResp.Failed? ==>
        err == Some(HttpStatus(versionsResp.status)) && versionsList == old(versionsList) && latest == old(latest)
      ensures HasScheme(url) && content.Got? && versionsResp.Unreachable? ==>
        err == Some(Connection) && versionsList == old(versionsList) && latest == old(latest)
      ensures HasScheme(url) && content.Got? && versionsResp.Got? ==> versionsList == versionsResp.body
      ensures HasScheme(url) && content.Got? && versionsResp.Got? && versionsResp.body == [] ==>
        err == Some(NoVersions) && latest == old(latest)
      ensures HasScheme(url) && content.Got? && versionsResp.Got? && versionsResp.body != [] ==>
        err == None && LatestVersion(versionsResp.body) == Ok(latest)
    {
      match CheckDatasetUrl(url) {
        case Err(e) => return Some(e);
        case Ok(u) =>
          datasetUrl := u;
          rawUrl := RawUrlOf(u);
      }
      match content {
        case Failed(code) => return Some(HttpStatus(code));
        case Unreachable => return Some(Connection);
        case Got(_) =>
      }
      err := LoadVersions(versionsResp);
    }

    /** set_cache_timeout: a negative timeout is refused and the old one
        kept. */
    method SetCacheTimeout(timeout: int) returns (err: Option<Error>)
      modifies this`cacheTimeout
      ensures err.None? <==> timeout >= 0
      ensures err.Some? ==> err == Some(BadCacheTimeout) && cacheTimeout == old(cacheTimeout)
      ensures err.None? ==> cacheTimeout == timeout
    {
      match CheckCacheTimeout(timeout) {
        case Err(e) => return Some(e);
        case Ok(t) =>
          cacheTimeout := t;
          return None;
      }
    }

    /** _get_data: the checks, then _download_and_cache of the history
        file. */
    method GetData(algorithm: string, size: int, backend: string, version: string, circuitKind: string,
                   force: bool, now: int, net: string -> Fetch<string>, parse: string -> Record, dump: Record -> string)
      returns (r: Result<seq<Record>>)
      requires Valid()
      modifies store
      ensures var req := Request(algorithm, size, backend, version, circuitKind, rawUrl, cacheDir);
        var s := DataSpec(old(store.disk), req, force, now, cacheTimeout, net, parse, dump);
        && r == s.result && store.disk == s.disk
        && store.requested == old(store.requested) + UrlsOf(req, s)
    {
      var req := Request(algorithm, size, backend, version, circuitKind, rawUrl, cacheDir);
      match req {
        case Err(e) =>
          return Err(e);
        case Ok(t) =>
          r := store.DownloadAndCache(t.url, t.path, force, now, cacheTimeout, net(t.url), parse, dump);
      }
    }

    /** The version loop of get_outcomes. */
    method FetchAll(versions: seq<string>, q: Query, now: int,
                    net: string -> Fetch<string>, parse: string -> Record, dump: Record -> string)
      returns (r: Result<seq<Record>>)
      requires Valid()
      modifies store
      ensures var g := Gather(old(store.disk), versions, q, SettingsOf(), now, net, parse, dump);
        && r == g.result && store.disk == g.disk && store.requested == old(store.requested) + g.urls
    {
      var data: seq<Record> := [];
      ghost var urls: seq<string> := [];
      for i := 0 to |versions|
        invariant Gather(old(store.disk), versions[..i], q, SettingsOf(), now, net, parse, dump)
               == Gathered(Ok(data), store.disk, urls)
        invariant store.requested == old(store.requested) + urls
      {
        ghost var req := RequestOf(q, versions[i], SettingsOf());
        ghost var s := DataSpec(store.disk, req, q.force, now, cacheTimeout, net, parse, dump);
        ghost var next := Gathered(if s.result.Ok? then Ok(data + s.result.value) else s.result,
                                   s.disk, urls + UrlsOf(req, s));
        assert Gather(old(store.disk), versions[..i + 1], q, SettingsOf(), now, net, parse, dump) == next by {
          GatherNext(old(store.disk), versions, i, q, SettingsOf(), now, net, parse, dump);
        }
        var got := GetData(q.algorithm, q.size, q.backend, versions[i], q.circuitKind, q.force, now, net, parse, dump);
        urls := urls + UrlsOf(req, s);
        match got {
          case Err(e) =>
            GatherErrPersists(old(store.disk), versions, i + 1, q, SettingsOf(), now, net, parse, dump);
            return Err(e);
          case Ok(recs) =>
            data := data + recs;
        }
      }
      assert versions[..|versions|] == versions;
      return Ok(data);
    }

    /** The strategy branch of get_outcomes, then the exact gate. */
    method Sample(recs: seq<Record>, key: CursorKey, shots: int, exact: bool, sequential: bool,
                  draws: seq<nat>, sampled: seq<string>)
      returns (r: Result<Hist>, ghost steps: nat)
      requires |recs| > 0 && shots > 0 && HasPositive(recs)
      modifies registry
      ensures sequential ==> SequentialRun(recs, old(registry.cursors), registry.cursors, key, shots, exact, sampled, steps, r)
      ensures !sequential ==> RandomRun(recs, draws, shots, exact, sampled, steps, r)
      ensures !sequential ==> registry.cursors == old(registry.cursors)
    {
      var agg, total;
      if sequential {
        agg, total, steps := registry.SampleSequential(key, recs, shots);
      } else {
        if !DrawsFit(recs, draws, shots) {
          return Err(OracleInvalid), 0;
        }
        agg, total, steps := SampleRandom(recs, shots, draws);
      }
      r := TrimTo(agg, total, shots, exact, sampled);
    }

    /** get_outcomes. Argument checks come first and fetch nothing; then
        the records of every version, in order; then the chosen strategy
        from the stored cursor or with the draw oracle; then the exact
        gate. `data` and `steps` are the records gathered and the number of
        records the strategy consumed. The cursor is written as soon as the
        sequential walk ends, so a failing trim still moves it. */
    method GetOutcomes(algorithm: string, size: int, backend: string, shots: int, circuitKind: string,
                       exact: bool, strategy: string, versions: seq<string>, force: bool, now: int,
                       net: string -> Fetch<string>, parse: string -> Record, dump: Record -> string,
                       draws: seq<nat>, sampled: seq<string>)
      returns (r: Result<Hist>, ghost data: seq<Record>, ghost steps: nat)
      requires Valid()
      modifies store, registry
      ensures shots <= 0 ==> r == Err(InvalidShots)
      ensures shots > 0 && strategy != "sequential" && strategy != "random" ==> r == Err(InvalidStrategy)
      ensures shots > 0 && (strategy == "sequential" || strategy == "random") && versions == [] ==> r == Err(NoVersions)
      ensures shots <= 0 || (strategy != "sequential" && strategy != "random") || versions == [] ==>
        store.disk == old(store.disk) && store.requested == old(store.requested)
        && registry.cursors == old(registry.cursors)
      ensures shots > 0 && (strategy == "sequential" || strategy == "random") && versions != [] ==>
        var g := Gather(old(store.disk), versions, Query(algorithm, size, backend, circuitKind, force),
                        SettingsOf(), now, net, parse, dump);
        && store.disk == g.disk && store.requested == old(store.requested) + g.urls
        && (g.result.Err? ==> r == Err(g.result.error) && registry.cursors == old(registry.cursors))
        && (g.result.Ok? ==> data == g.result.value)
        && (g.result.Ok? && data == [] ==> r == Err(NoRecords) && registry.cursors == old(registry.cursors))
        && (g.result.Ok? && data != [] && !HasPositive(data) ==>
              r == Err(Diverges) && registry.cursors == old(registry.cursors))
        && (g.result.Ok? && data != [] && HasPositive(data) && strategy == "sequential" ==>
              SequentialRun(data, old(registry.cursors), registry.cursors,
                            CursorKey(algorithm, size, backend, circuitKind), shots, exact, sampled, steps, r))
        && (g.result.Ok? && data != [] && HasPositive(data) && strategy == "random" ==>
              RandomRun(data, draws, shots, exact, sampled, steps, r) && registry.cursors == old(registry.cursors))
    {
      data, steps := [], 0;
      if shots <= 0 {
        return Err(InvalidShots), data, steps;
      }
      if strategy != "sequential" && strategy != "random" {
        return Err(InvalidStrategy), data, steps;
      }
      if versions == [] {
        return Err(NoVersions), data, steps;
      }
      var got := FetchAll(versions, Query(algorithm, size, backend, circuitKind, force), now, net, parse, dump);
      if got.Err? {
        return Err(got.error), data, steps;
      }
      data := got.value;
      if |got.value| == 0 {
        return Err(NoRecords), data, steps;
      }
      if !HasPositive(got.value) {
        return Err(Diverges), data, steps;
      }
      r, steps := Sample(got.value, CursorKey(algorithm, size, backend, circuitKind), shots, exact,
                         strategy == "sequential", draws, sampled);
    }
  }
}

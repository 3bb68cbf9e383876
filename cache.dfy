/** The on-disk cache of history files behind `_download_and_cache`: a file
    younger than the cache timeout is served from disk, an older one is
    deleted and downloaded again, a 404 means "no records", any other HTTP
    error or a failed connection is raised, and a successful download is
    parsed line by line and written back to disk.

    The disk is a map from cache path to file (modification time and text).
    The clock is the parameter `now`, read once per call. The HTTP response
    is the parameter `resp`. json.loads and json.dumps are the parameters
    `parse` and `dump`. */
module Cache {
  import opened Base
  import opened Strings

  datatype CacheFile = CacheFile(mtime: int, text: string)

  type Disk = map<string, CacheFile>

  /** The lines of a cached file that are not empty (`if line`). */
  function NonEmpty(lines: seq<string>): (r: seq<string>)
    ensures forall i | 0 <= i < |r| :: r[i] != []
    ensures forall i | 0 <= i < |lines| :: lines[i] != [] ==> lines[i] in r
    ensures forall i | 0 <= i < |r| :: r[i] in lines
  {
    if lines == [] then []
    else (if lines[0] != [] then [lines[0]] else []) + NonEmpty(lines[1..])
  }

  /** The lines of a response that are not blank (`if line.strip()`). */
  function NonBlank(lines: seq<string>): (r: seq<string>)
    ensures forall i | 0 <= i < |r| :: !IsBlank(r[i])
    ensures forall i | 0 <= i < |lines| :: !IsBlank(lines[i]) ==> lines[i] in r
    ensures forall i | 0 <= i < |r| :: r[i] in lines
  {
    if lines == [] then []
    else (if !IsBlank(lines[0]) then [lines[0]] else []) + NonBlank(lines[1..])
  }

  /** One call of `f` per element, in order: json.loads over lines, or
      json.dumps over records. */
  function MapAll<A, B>(xs: seq<A>, f: A -> B): (r: seq<B>)
    ensures |r| == |xs|
    ensures forall i | 0 <= i < |r| :: r[i] == f(xs[i])
  {
    if xs == [] then [] else [f(xs[0])] + MapAll(xs[1..], f)
  }

  /** The records served from a cached file: every record is parsed from
      a non-empty line, and every non-empty line gives a record. */
  function ReadCached<R>(text: string, parse: string -> R): (r: seq<R>)
    ensures forall i | 0 <= i < |r| :: exists l | l in Lines(text) :: l != [] && r[i] == parse(l)
    ensures forall l | l in Lines(text) && l != [] :: parse(l) in r
  {
    var ls := NonEmpty(Lines(text));
    var r := MapAll(ls, parse);
    assert forall l | l in Lines(text) && l != [] :: parse(l) in r by {
      forall l | l in Lines(text) && l != []
        ensures parse(l) in r
      {
        var j :| 0 <= j < |Lines(text)| && Lines(text)[j] == l;
        var i :| 0 <= i < |ls| && ls[i] == l;
        assert r[i] == parse(l);
      }
    }
    r
  }

  /** The records of a downloaded body: every record is parsed from a
      non-blank line, and every non-blank line gives a record. */
  function ParseBody<R>(body: string, parse: string -> R): (r: seq<R>)
    ensures forall i | 0 <= i < |r| :: exists l | l in Lines(body) :: !IsBlank(l) && r[i] == parse(l)
    ensures forall l | l in Lines(body) && !IsBlank(l) :: parse(l) in r
  {
    var ls := NonBlank(Lines(body));
    var r := MapAll(ls, parse);
    assert forall l | l in Lines(body) && !IsBlank(l) :: parse(l) in r by {
      forall l | l in Lines(body) && !IsBlank(l)
        ensures parse(l) in r
      {
        var j :| 0 <= j < |Lines(body)| && Lines(body)[j] == l;
        var i :| 0 <= i < |ls| && ls[i] == l;
        assert r[i] == parse(l);
      }
    }
    r
  }

  /** The text written to disk for the downloaded records: one line per
      record, so that when no dump holds a line break, splitting the text
      into lines gives back the dumps. */
  function Serialize<R>(recs: seq<R>, dump: R -> string): (text: string)
    ensures recs != [] && (forall i | 0 <= i < |recs| :: NoBreaks(dump(recs[i]))) ==> Lines(text) == MapAll(recs, dump)
  {
    var lines := MapAll(recs, dump);
    if recs != [] && (forall i | 0 <= i < |recs| :: NoBreaks(dump(recs[i]))) then
      LinesJoin(lines);
      Join(lines, '\n')
    else
      Join(lines, '\n')
  }

  /** A file is fresh while it is younger than the timeout. */
  predicate Fresh(f: CacheFile, now: int, timeout: int)
  {
    now - f.mtime < timeout
  }

  /** What one call returns, the disk after it, and whether it went to the
      network. */
  datatype Served<R> = Served(result: Result<seq<R>>, disk: Disk, fetched: bool)

  /** One call of `_download_and_cache` on the cache path `path`. */
  function Download<R>(disk: Disk, path: string, force: bool, now: int, timeout: int,
                       resp: Fetch<string>, parse: string -> R, dump: R -> string): (s: Served<R>)
    ensures !s.fetched ==> s.disk == disk
    ensures s.fetched && s.result.Ok? && resp.Got? ==> path in s.disk && s.disk[path].mtime == now
  {
    if path in disk && !force && Fresh(disk[path], now, timeout) then
      Served(Ok(ReadCached(disk[path].text, parse)), disk, false)
    else
      var kept := if path in disk && !force then disk - {path} else disk;
      match resp
      case Failed(code) =>
        if code == 404 then Served(Ok([]), kept, true)
        else Served(Err(HttpStatus(code)), kept, true)
      case Unreachable => Served(Err(Connection), kept, true)
      case Got(body) =>
        var recs := ParseBody(body, parse);
        Served(Ok(recs), kept[path := CacheFile(now, Serialize(recs, dump))], true)
  }

  /** The local file system under the cache directory, and the URLs the
      library has requested. */
  class Store {
    var disk: Disk
    var requested: seq<string>

    constructor (disk0: Disk)
      ensures disk == disk0 && requested == []
    {
      disk := disk0;
      requested := [];
    }

    /** `_download_and_cache(url, path, force)`: `resp` is what a GET of
        `url` returns when the call goes to the network. */
    method DownloadAndCache<R>(url: string, path: string, force: bool, now: int, timeout: int,
                               resp: Fetch<string>, parse: string -> R, dump: R -> string)
      returns (r: Result<seq<R>>)
      modifies this
      ensures var s := Download(old(disk), path, force, now, timeout, resp, parse, dump);
        && r == s.result && disk == s.disk
        && requested == old(requested) + (if s.fetched then [url] else [])
    {
      if path in disk && !force {
        var file := disk[path];
        if now - file.mtime < timeout {
          var lines := NonEmpty(Lines(file.text));
          r := Ok(MapAll(lines, parse));
          return;
        }
        disk := disk - {path};
      }
      requested := requested + [url];
      match resp {
        case Failed(code) =>
          if code != 404 {
            r := Err(HttpStatus(code));
          } else {
            r := Ok([]);
          }
        case Unreachable =>
          r := Err(Connection);
        case Got(body) =>
          var recs := MapAll(NonBlank(Lines(body)), parse);
          disk := disk[path := CacheFile(now, Join(MapAll(recs, dump), '\n'))];
          r := Ok(recs);
      }
    }
  }

  // ---------------------------------------------------------------------
  // Properties

  /** A fresh cached file is served from disk: no request, nothing changes
      on disk. */
  lemma FreshHit<R>(disk: Disk, path: string, now: int, timeout: int,
                    resp: Fetch<string>, parse: string -> R, dump: R -> string)
    requires path in disk && Fresh(disk[path], now, timeout)
    ensures var s := Download(disk, path, false, now, timeout, resp, parse, dump);
      && !s.fetched && s.disk == disk
      && s.result == Ok(ReadCached(disk[path].text, parse))
  {
  }

  /** A forced call, an absent file or an expired file goes to the network;
      an expired file is deleted first, so unless the download succeeds
      nothing is cached under that path afterwards. A forced call deletes
      nothing, so a failed forced fetch keeps the file as it was. */
  lemma MissFetches<R>(disk: Disk, path: string, force: bool, now: int, timeout: int,
                       resp: Fetch<string>, parse: string -> R, dump: R -> string)
    requires force || path !in disk || !Fresh(disk[path], now, timeout)
    ensures var s := Download(disk, path, force, now, timeout, resp, parse, dump);
      && s.fetched
      && (!resp.Got? && !force ==> path !in s.disk)
      && (!resp.Got? ==> s.disk == if path in disk && !force then disk - {path} else disk)
      && (!resp.Got? && force ==> s.disk == disk)
      && (forall p | p in disk && p != path :: p in s.disk && s.disk[p] == disk[p])
      && s.disk.Keys <= disk.Keys + {path}
  {
  }

  /** Only 404 is read as "no records"; every other error status and a
      failed connection is an error. */
  lemma ErrorsOfFetch<R>(disk: Disk, path: string, force: bool, now: int, timeout: int,
                         resp: Fetch<string>, parse: string -> R, dump: R -> string)
    requires force || path !in disk || !Fresh(disk[path], now, timeout)
    ensures var s := Download(disk, path, force, now, timeout, resp, parse, dump);
      && (resp == Failed(404) ==> s.result == Ok([]))
      && (resp.Failed? && resp.status != 404 ==> s.result == Err(HttpStatus(resp.status)))
      && (resp.Unreachable? ==> s.result == Err(Connection))
      && (s.result.Err? <==> !resp.Got? && resp != Failed(404))
  {
  }

  /** A successful download returns one record per non-blank line of the
      body, in order, and caches them with the current time. */
  lemma SuccessCaches<R>(disk: Disk, path: string, force: bool, now: int, timeout: int,
                         body: string, parse: string -> R, dump: R -> string)
    requires force || path !in disk || !Fresh(disk[path], now, timeout)
    ensures var s := Download(disk, path, force, now, timeout, Got(body), parse, dump);
      && s.result == Ok(ParseBody(body, parse))
      && path in s.disk && s.disk[path] == CacheFile(now, Serialize(ParseBody(body, parse), dump))
      && forall i | 0 <= i < |s.result.value| :: exists j | 0 <= j < |Lines(body)| ::
           !IsBlank(Lines(body)[j]) && s.result.value[i] == parse(Lines(body)[j])
  {
    var lines := NonBlank(Lines(body));
    var recs := MapAll(lines, parse);
    forall i | 0 <= i < |recs|
      ensures exists j | 0 <= j < |Lines(body)| :: !IsBlank(Lines(body)[j]) && recs[i] == parse(Lines(body)[j])
    {
      assert lines[i] in Lines(body);
      var j :| 0 <= j < |Lines(body)| && Lines(body)[j] == lines[i];
      assert !IsBlank(Lines(body)[j]);
    }
  }

  /** json.dumps then json.loads gives the record back, as one non-empty
      line. */
  ghost predicate RoundTrips<R(!new)>(parse: string -> R, dump: R -> string)
  {
    forall x: R :: parse(dump(x)) == x && dump(x) != [] && NoBreaks(dump(x))
  }

  lemma {:induction false} ParseDumpAll<R(!new)>(recs: seq<R>, parse: string -> R, dump: R -> string)
    requires RoundTrips(parse, dump)
    ensures MapAll(MapAll(recs, dump), parse) == recs
    ensures NonEmpty(MapAll(recs, dump)) == MapAll(recs, dump)
  {
    if recs != [] {
      ParseDumpAll(recs[1..], parse, dump);
      assert MapAll(recs, dump)[1..] == MapAll(recs[1..], dump);
    }
  }

  /** What is written to disk reads back as the records that were
      written. */
  lemma ReadWhatWasWritten<R(!new)>(recs: seq<R>, parse: string -> R, dump: R -> string)
    requires RoundTrips(parse, dump)
    ensures ReadCached(Serialize(recs, dump), parse) == recs
  {
    var lines := MapAll(recs, dump);
    if recs == [] {
      assert Lines("") == [""];
    } else {
      LinesJoin(lines);
      ParseDumpAll(recs, parse, dump);
    }
  }

  /** A download followed, within the timeout, by a call that does not
      force: the second call makes no request and returns the records of
      the first. */
  lemma CachedWithinTimeout<R(!new)>(disk: Disk, path: string, force: bool, now: int, later: int, timeout: int,
                               body: string, resp2: Fetch<string>, parse: string -> R, dump: R -> string)
    requires RoundTrips(parse, dump)
    requires force || path !in disk || !Fresh(disk[path], now, timeout)
    requires later - now < timeout
    ensures var s1 := Download(disk, path, force, now, timeout, Got(body), parse, dump);
      var s2 := Download(s1.disk, path, false, later, timeout, resp2, parse, dump);
      && !s2.fetched && s2.disk == s1.disk && s2.result == s1.result
  {
    ReadWhatWasWritten(ParseBody(body, parse), parse, dump);
  }

  /** Once the timeout has passed, the same second call goes back to the
      network. */
  lemma RefetchedAfterTimeout<R>(disk: Disk, path: string, force: bool, now: int, later: int, timeout: int,
                                 body: string, resp2: Fetch<string>, parse: string -> R, dump: R -> string)
    requires force || path !in disk || !Fresh(disk[path], now, timeout)
    requires later - now >= timeout
    ensures var s1 := Download(disk, path, force, now, timeout, Got(body), parse, dump);
      Download(s1.disk, path, false, later, timeout, resp2, parse, dump).fetched
  {
  }
}

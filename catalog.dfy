/** The dataset catalog: `get_index`, which turns the file names of one
    version's directory listing into an index of algorithms, sizes and
    backends, and the file selection of `get_metadata`. The listing itself
    is the parameter `resp`, standing for the GitHub tree request. */
module Catalog {
  import opened Base
  import opened Strings

  /** What one catalog file name stands for. */
  datatype Entry = Entry(algorithm: string, size: nat, backend: string)

  /** Directory entries that are not catalog files. */
  predicate Reserved(name: string)
  {
    name == "artifacts" || name == "histories" || name == "metadata.json"
  }

  /** The first all-digit token at or after position i, or |parts|. */
  function FirstDigits(parts: seq<string>, i: nat): (k: nat)
    requires i <= |parts|
    ensures i <= k <= |parts|
    ensures k < |parts| ==> IsDigits(parts[k])
    ensures forall t | i <= t < k :: !IsDigits(parts[t])
    decreases |parts| - i
  {
    if i == |parts| then i
    else if IsDigits(parts[i]) then i
    else FirstDigits(parts, i + 1)
  }

  /** The tokenizer of get_index on one name. Every ".json" is removed, the
      rest is split at '_', the first token and every following token up
      to the first all-digit one form the algorithm, that token is the
      size, and the tokens after it except the last one form the backend.
      No all-digit token after the first, or none after the size, is the
      IndexError of an empty deque, and these are its only errors. */
  function ParseSpec(name: string): (r: Result<Entry>)
    ensures r.Err? ==> r.error == NoSizeToken || r.error == NoBackendToken
  {
    var parts := Split(RemoveAll(name, ".json"), '_');
    var k := FirstDigits(parts, 1);
    if k == |parts| then Err(NoSizeToken)
    else if k + 1 == |parts| then Err(NoBackendToken)
    else Ok(Entry(Join(parts[..k], '_'), DigitsValue(parts[k]), Join(parts[k + 1..|parts| - 1], '_')))
  }

  /** The deque loop of get_index (popleft until a digit token, then one
      pop), proved to compute ParseSpec. */
  method ParseName(name: string) returns (r: Result<Entry>)
    ensures r == ParseSpec(name)
  {
    var parts := Split(RemoveAll(name, ".json"), '_');
    var alg := parts[0];
    var dq := parts[1..];
    ghost var i := 1;
    var size: nat;
    while true
      invariant 1 <= i <= |parts| && dq == parts[i..]
      invariant alg == Join(parts[..i], '_')
      invariant FirstDigits(parts, 1) == FirstDigits(parts, i)
      decreases |dq|
    {
      if dq == [] {
        return Err(NoSizeToken);
      }
      var part := dq[0];
      dq := dq[1..];
      if IsDigits(part) {
        size := DigitsValue(part);
        break;
      }
      JoinSnoc(parts[..i], '_', part);
      assert parts[..i + 1] == parts[..i] + [part];
      alg := alg + "_" + part;
      i := i + 1;
    }
    if dq == [] {
      return Err(NoBackendToken);
    }
    dq := dq[..|dq| - 1];
    assert dq == parts[i + 1..|parts| - 1];
    var backend := Join(dq, '_');
    return Ok(Entry(alg, size, backend));
  }

  /** One item of the listing: skipped when reserved, else parsed. A
      missing "path" reads as "". */
  function ItemSpec(item: Option<string>): (r: Result<Option<Entry>>)
    ensures r == Ok(None) <==> Reserved(item.GetOr(""))
    ensures !Reserved(item.GetOr("")) ==> (r.Ok? <==> ParseSpec(item.GetOr("")).Ok?)
  {
    var name := item.GetOr("");
    if Reserved(name) then Ok(None)
    else match ParseSpec(name)
      case Ok(e) => Ok(Some(e))
      case Err(err) => Err(err)
  }

  /** The entries of the listing, in tree order; the first name that does
      not parse is the error. At most one entry per item, and every error
      is a tokenizer error. */
  function Entries(items: seq<Option<string>>): (r: Result<seq<Entry>>)
    ensures r.Ok? ==> |r.value| <= |items|
    ensures r.Err? ==> r.error == NoSizeToken || r.error == NoBackendToken
  {
    if items == [] then Ok([])
    else
      match Entries(items[..|items| - 1])
      case Err(e) => Err(e)
      case Ok(es) =>
        match ItemSpec(items[|items| - 1])
        case Err(e) => Err(e)
        case Ok(None) => Ok(es)
        case Ok(Some(e)) => Ok(es + [e])
  }

  // ---------------------------------------------------------------------
  // Grouping

  type AlgIndex = map<string, map<nat, seq<string>>>
  type BackendIndex = map<string, map<string, seq<nat>>>

  /** The two shapes of get_index's result. */
  datatype Index = ByAlgorithm(algs: AlgIndex) | ByBackend(backends: BackendIndex)

  /** result.setdefault(alg, {}).setdefault(size, []).append(backend) */
  function AddByAlgorithm(m: AlgIndex, e: Entry): AlgIndex
  {
    var inner := if e.algorithm in m then m[e.algorithm] else map[];
    var list := if e.size in inner then inner[e.size] else [];
    m[e.algorithm := inner[e.size := list + [e.backend]]]
  }

  /** result.setdefault(backend, {}).setdefault(alg, []).append(size) */
  function AddByBackend(m: BackendIndex, e: Entry): BackendIndex
  {
    var inner := if e.backend in m then m[e.backend] else map[];
    var list := if e.algorithm in inner then inner[e.algorithm] else [];
    m[e.backend := inner[e.algorithm := list + [e.size]]]
  }

  /** One setdefault chain adds the entry's algorithm to the keys and
      appends its backend to the list under its algorithm and size (a new
      list when there was none); every other list is kept. */
  lemma AddByAlgorithmAppends(m: AlgIndex, e: Entry)
    ensures var r := AddByAlgorithm(m, e);
      && r.Keys == m.Keys + {e.algorithm}
      && e.size in r[e.algorithm]
      && r[e.algorithm][e.size]
         == (if e.algorithm in m && e.size in m[e.algorithm] then m[e.algorithm][e.size] else []) + [e.backend]
      && (forall a, z | a in m && z in m[a] && (a != e.algorithm || z != e.size) :: z in r[a] && r[a][z] == m[a][z])
  {
  }

  /** One setdefault chain adds the entry's backend to the keys and
      appends its size to the list under its backend and algorithm (a new
      list when there was none); every other list is kept. */
  lemma AddByBackendAppends(m: BackendIndex, e: Entry)
    ensures var r := AddByBackend(m, e);
      && r.Keys == m.Keys + {e.backend}
      && e.algorithm in r[e.backend]
      && r[e.backend][e.algorithm]
         == (if e.backend in m && e.algorithm in m[e.backend] then m[e.backend][e.algorithm] else []) + [e.size]
      && (forall be, a | be in m && a in m[be] && (be != e.backend || a != e.algorithm) :: a in r[be] && r[be][a] == m[be][a])
  {
  }

  function GroupByAlgorithm(es: seq<Entry>): AlgIndex
  {
    if es == [] then map[] else AddByAlgorithm(GroupByAlgorithm(es[..|es| - 1]), es[|es| - 1])
  }

  function GroupByBackend(es: seq<Entry>): BackendIndex
  {
    if es == [] then map[] else AddByBackend(GroupByBackend(es[..|es| - 1]), es[|es| - 1])
  }

  function Group(es: seq<Entry>, byBackend: bool): Index
  {
    if byBackend then ByBackend(GroupByBackend(es)) else ByAlgorithm(GroupByAlgorithm(es))
  }

  /** Independent reading of the algorithm-first index: the backends of
      the entries with that algorithm and size, in listing order. */
  function BackendsOf(es: seq<Entry>, alg: string, size: nat): seq<string>
  {
    if es == [] then []
    else
      var e := es[|es| - 1];
      BackendsOf(es[..|es| - 1], alg, size) + (if e.algorithm == alg && e.size == size then [e.backend] else [])
  }

  /** The sizes of the entries with that backend and algorithm, in listing
      order. */
  function SizesOf(es: seq<Entry>, backend: string, alg: string): seq<nat>
  {
    if es == [] then []
    else
      var e := es[|es| - 1];
      SizesOf(es[..|es| - 1], backend, alg) + (if e.backend == backend && e.algorithm == alg then [e.size] else [])
  }

  function LookupAlg(m: AlgIndex, alg: string, size: nat): seq<string>
  {
    if alg in m && size in m[alg] then m[alg][size] else []
  }

  function LookupBackend(m: BackendIndex, backend: string, alg: string): seq<nat>
  {
    if backend in m && alg in m[backend] then m[backend][alg] else []
  }

  /** The algorithm-first index lists, under every algorithm and size, the
      backends of exactly the matching entries in listing order, and has a
      key exactly for the algorithms and sizes that occur. */
  lemma {:induction false} GroupByAlgorithmContents(es: seq<Entry>, alg: string, size: nat)
    ensures LookupAlg(GroupByAlgorithm(es), alg, size) == BackendsOf(es, alg, size)
    ensures alg in GroupByAlgorithm(es) <==> exists i | 0 <= i < |es| :: es[i].algorithm == alg
    ensures alg in GroupByAlgorithm(es) ==>
      (size in GroupByAlgorithm(es)[alg] <==> exists i | 0 <= i < |es| :: es[i].algorithm == alg && es[i].size == size)
  {
    if es != [] {
      var init := es[..|es| - 1];
      GroupByAlgorithmContents(init, alg, size);
      assert forall i | 0 <= i < |init| :: init[i] == es[i];
    }
  }

  /** The same for the backend-first index. */
  lemma {:induction false} GroupByBackendContents(es: seq<Entry>, backend: string, alg: string)
    ensures LookupBackend(GroupByBackend(es), backend, alg) == SizesOf(es, backend, alg)
    ensures backend in GroupByBackend(es) <==> exists i | 0 <= i < |es| :: es[i].backend == backend
    ensures backend in GroupByBackend(es) ==>
      (alg in GroupByBackend(es)[backend] <==> exists i | 0 <= i < |es| :: es[i].backend == backend && es[i].algorithm == alg)
  {
    if es != [] {
      var init := es[..|es| - 1];
      GroupByBackendContents(init, backend, alg);
      assert forall i | 0 <= i < |init| :: init[i] == es[i];
    }
  }

  /** get_index: the circuit-kind and version checks, then the listing.
      An index is only built for a known kind and version from a fetched
      listing, and has the shape asked for. */
  function IndexSpec(circuitKind: string, byBackend: bool, version: string, versions: seq<string>,
                     resp: Fetch<seq<Option<string>>>): (r: Result<Index>)
    ensures r.Ok? ==> (Lower(circuitKind) == "circuit" || Lower(circuitKind) == "mirror") && version in versions && resp.Got?
    ensures r.Ok? ==> (r.value.ByBackend? <==> byBackend)
  {
    var kind := Lower(circuitKind);
    if kind != "circuit" && kind != "mirror" then Err(InvalidKind)
    else if version !in versions then Err(UnknownVersion)
    else match resp
      case Failed(code) => Err(HttpStatus(code))
      case Unreachable => Err(Connection)
      case Got(items) =>
        match Entries(items)
        case Err(e) => Err(e)
        case Ok(es) => Ok(Group(es, byBackend))
  }

  /** get_index: the checks, then one pass over the listing that parses
      each name and appends it to the index. */
  method GetIndex(circuitKind: string, byBackend: bool, version: string, versions: seq<string>,
                  resp: Fetch<seq<Option<string>>>) returns (r: Result<Index>)
    ensures r == IndexSpec(circuitKind, byBackend, version, versions, resp)
  {
    var kind := Lower(circuitKind);
    if kind != "circuit" && kind != "mirror" {
      return Err(InvalidKind);
    }
    if version !in versions {
      return Err(UnknownVersion);
    }
    var items;
    match resp {
      case Failed(code) => return Err(HttpStatus(code));
      case Unreachable => return Err(Connection);
      case Got(body) => items := body;
    }
    var result := if byBackend then ByBackend(map[]) else ByAlgorithm(map[]);
    ghost var es: seq<Entry> := [];
    for i := 0 to |items|
      invariant Entries(items[..i]) == Ok(es)
      invariant result == Group(es, byBackend)
    {
      assert items[..i + 1][..i] == items[..i];
      var name := items[i].GetOr("");
      if Reserved(name) {
        continue;
      }
      var parsed := ParseName(name);
      match parsed {
        case Err(e) =>
          EntriesErrPersists(items, i + 1, e);
          return Err(e);
        case Ok(e) =>
          assert (es + [e])[..|es|] == es;
          if !byBackend {
            result := ByAlgorithm(AddByAlgorithm(result.algs, e));
          } else {
            result := ByBackend(AddByBackend(result.backends, e));
          }
          es := es + [e];
      }
    }
    assert items[..|items|] == items;
    return Ok(result);
  }

  /** Once a prefix of the listing fails, the whole listing fails with the
      same error. */
  lemma {:induction false} EntriesErrPersists(items: seq<Option<string>>, n: nat, e: Error)
    requires n <= |items| && Entries(items[..n]) == Err(e)
    ensures Entries(items) == Err(e)
    decreases |items| - n
  {
    if n < |items| {
      assert items[..n + 1][..n] == items[..n];
      EntriesErrPersists(items, n + 1, e);
    } else {
      assert items[..n] == items;
    }
  }

  // ---------------------------------------------------------------------
  // Tokenizer properties

  /** Tokens that a name can be built from: no separator, no '.', and not
      all digits (for the algorithm tokens after the first). */
  predicate Plain(tokens: seq<string>)
  {
    forall i | 0 <= i < |tokens| :: '_' !in tokens[i] && '.' !in tokens[i]
  }

  /** Tokens without the separator. */
  predicate NoSep(tokens: seq<string>)
  {
    forall i | 0 <= i < |tokens| :: '_' !in tokens[i]
  }

  /** ".json" occurs in stem + ".json" only as the extension. */
  predicate JsonOnlyAtEnd(stem: string)
  {
    forall k: nat | k < |stem| :: !OccursAt(stem + ".json", ".json", k)
  }

  predicate NoDigitTokens(tokens: seq<string>)
  {
    forall i | 0 <= i < |tokens| :: !IsDigits(tokens[i])
  }

  /** A catalog name alg_size_backend.json, with the algorithm and the
      backend given as '_'-free tokens and ".json" only as its extension,
      parses back to the algorithm, the size and the backend without its
      last token. */
  lemma ParseFormatted(alg: seq<string>, size: nat, be: seq<string>)
    requires |alg| >= 1 && |be| >= 1
    requires NoSep(alg) && NoSep(be) && NoDigitTokens(alg[1..])
    requires JsonOnlyAtEnd(Join(alg, '_') + "_" + NatToString(size) + "_" + Join(be, '_'))
    ensures ParseSpec(Join(alg, '_') + "_" + NatToString(size) + "_" + Join(be, '_') + ".json")
         == Ok(Entry(Join(alg, '_'), size, Join(be[..|be| - 1], '_')))
  {
    var d := NatToString(size);
    var tokens := alg + [d] + be;
    var name := Join(alg, '_') + "_" + d + "_" + Join(be, '_') + ".json";
    FormattedTokens(alg, size, be);
    TokensSkipped(alg, d, be);
    FirstDigitsSkips(tokens, 1, |alg|);
    DigitsValueOfNatToString(size);
    ParseSpecOfTokens(name, alg, d, be);
  }

  /** ParseSpec once the tokens and the size position are known. */
  lemma ParseSpecOfTokens(name: string, alg: seq<string>, d: string, be: seq<string>)
    requires Split(RemoveAll(name, ".json"), '_') == alg + [d] + be
    requires |alg| >= 1 && |be| >= 1 && IsDigits(d) && FirstDigits(alg + [d] + be, 1) == |alg|
    ensures ParseSpec(name) == Ok(Entry(Join(alg, '_'), DigitsValue(d), Join(be[..|be| - 1], '_')))
  {
    ParseSpecAt(name, alg + [d] + be, |alg|);
    EntryOfTokens(alg, d, be);
  }

  lemma ParseSpecAt(name: string, parts: seq<string>, k: nat)
    requires Split(RemoveAll(name, ".json"), '_') == parts
    requires 1 <= k && k + 1 < |parts| && FirstDigits(parts, 1) == k
    ensures ParseSpec(name) == Ok(Entry(Join(parts[..k], '_'), DigitsValue(parts[k]), Join(parts[k + 1..|parts| - 1], '_')))
  {
  }

  /** The entry ParseSpecAt reads off alg + [d] + be. */
  lemma EntryOfTokens(alg: seq<string>, d: string, be: seq<string>)
    requires |alg| >= 1 && |be| >= 1 && IsDigits(d)
    ensures var parts := alg + [d] + be;
      Entry(Join(parts[..|alg|], '_'), DigitsValue(parts[|alg|]), Join(parts[|alg| + 1..|parts| - 1], '_'))
        == Entry(Join(alg, '_'), DigitsValue(d), Join(be[..|be| - 1], '_'))
  {
    TokensSlices(alg, d, be);
  }

  lemma TokensSlices(alg: seq<string>, d: string, be: seq<string>)
    ensures var tokens := alg + [d] + be;
      && tokens[..|alg|] == alg && tokens[|alg|] == d
      && (|be| >= 1 ==> tokens[|alg| + 1..|tokens| - 1] == be[..|be| - 1])
  {
  }

  /** In alg + [d] + be, the tokens after the first and before d are the
      algorithm's, and d is all digits. */
  lemma TokensSkipped(alg: seq<string>, d: string, be: seq<string>)
    requires |alg| >= 1 && NoDigitTokens(alg[1..]) && IsDigits(d)
    ensures var tokens := alg + [d] + be;
      && |alg| < |tokens| && IsDigits(tokens[|alg|])
      && forall t | 1 <= t < |alg| :: !IsDigits(tokens[t])
  {
    var tokens := alg + [d] + be;
    forall t | 1 <= t < |alg|
      ensures !IsDigits(tokens[t])
    {
      assert tokens[t] == alg[t] == alg[1..][t - 1];
    }
  }

  /** The stem of a formatted name is the join of its tokens, and
      removing ".json" and splitting gives the tokens back. */
  lemma FormattedTokens(alg: seq<string>, size: nat, be: seq<string>)
    requires |alg| >= 1 && |be| >= 1
    requires NoSep(alg) && NoSep(be)
    requires JsonOnlyAtEnd(Join(alg, '_') + "_" + NatToString(size) + "_" + Join(be, '_'))
    ensures Split(RemoveAll(Join(alg, '_') + "_" + NatToString(size) + "_" + Join(be, '_') + ".json", ".json"), '_')
         == alg + [NatToString(size)] + be
  {
    var d := NatToString(size);
    var tokens := alg + [d] + be;
    NoSepTokens(alg, size, be);
    JoinTokens(alg, d, be);
    RemoveAllSuffix(Join(tokens, '_'), ".json");
    SplitJoin(tokens, '_');
  }

  /** Plain tokens give a name with ".json" only as its extension. */
  lemma PlainFormatted(alg: seq<string>, size: nat, be: seq<string>)
    requires |alg| >= 1 && |be| >= 1 && Plain(alg) && Plain(be)
    ensures NoSep(alg) && NoSep(be)
    ensures JsonOnlyAtEnd(Join(alg, '_') + "_" + NatToString(size) + "_" + Join(be, '_'))
  {
    var d := NatToString(size);
    var tokens := alg + [d] + be;
    PlainTokens(alg, size, be);
    JoinTokens(alg, d, be);
    JoinNoChar(tokens, '.', '_');
    OnlySuffixWhenFree(Join(tokens, '_'), ".json");
  }

  lemma NoSepTokens(alg: seq<string>, size: nat, be: seq<string>)
    requires NoSep(alg) && NoSep(be)
    ensures NoSep(alg + [NatToString(size)] + be)
  {
    var d := NatToString(size);
    var tokens := alg + [d] + be;
    assert '_' !in d by {
      assert forall j | 0 <= j < |d| :: IsDigit(d[j]);
    }
    forall i | 0 <= i < |tokens|
      ensures '_' !in tokens[i]
    {
      var rest := [d] + be;
      assert tokens == alg + rest;
      if i < |alg| {
        assert tokens[i] == alg[i];
      } else {
        assert tokens[i] == rest[i - |alg|];
        if i > |alg| {
          assert rest[i - |alg|] == be[i - |alg| - 1];
        }
      }
    }
  }

  lemma PlainTokens(alg: seq<string>, size: nat, be: seq<string>)
    requires Plain(alg) && Plain(be)
    ensures Plain(alg + [NatToString(size)] + be)
  {
    var d := NatToString(size);
    var tokens := alg + [d] + be;
    assert '_' !in d && '.' !in d by {
      assert forall j | 0 <= j < |d| :: IsDigit(d[j]);
    }
    forall i | 0 <= i < |tokens|
      ensures '_' !in tokens[i] && '.' !in tokens[i]
    {
      var rest := [d] + be;
      assert tokens == alg + rest;
      if i < |alg| {
        assert tokens[i] == alg[i];
      } else {
        assert tokens[i] == rest[i - |alg|];
        if i > |alg| {
          assert rest[i - |alg|] == be[i - |alg| - 1];
        }
      }
    }
  }

  lemma JoinTokens(alg: seq<string>, d: string, be: seq<string>)
    requires |alg| >= 1 && |be| >= 1
    ensures Join(alg + [d] + be, '_') == Join(alg, '_') + "_" + d + "_" + Join(be, '_')
  {
    var rest := [d] + be;
    TokensRegroup(alg, d, be);
    JoinAppend(alg, rest, '_');
    JoinCons(d, be);
    StringRegroup(Join(alg, '_'), d, Join(be, '_'));
  }

  lemma TokensRegroup(alg: seq<string>, d: string, be: seq<string>)
    ensures alg + [d] + be == alg + ([d] + be)
  {
  }

  lemma JoinCons(d: string, be: seq<string>)
    requires |be| >= 1
    ensures Join([d] + be, '_') == d + "_" + Join(be, '_')
  {
    JoinAppend([d], be, '_');
  }

  lemma StringRegroup(x: string, d: string, y: string)
    ensures x + "_" + (d + "_" + y) == x + "_" + d + "_" + y
  {
  }

  lemma StemSplits(tokens: seq<string>)
    requires |tokens| >= 1 && Plain(tokens)
    ensures Split(RemoveAll(Join(tokens, '_') + ".json", ".json"), '_') == tokens
  {
    JoinNoChar(tokens, '.', '_');
    OnlySuffixWhenFree(Join(tokens, '_'), ".json");
    RemoveAllSuffix(Join(tokens, '_'), ".json");
    SplitJoin(tokens, '_');
  }

  /** No c in the pieces and c different from the separator: no c in the
      join. */
  lemma {:induction false} JoinNoChar(parts: seq<string>, c: char, sep: char)
    requires c != sep
    requires forall i | 0 <= i < |parts| :: c !in parts[i]
    ensures c !in Join(parts, sep)
  {
    if |parts| > 1 {
      JoinNoChar(parts[1..], c, sep);
    }
  }

  lemma {:induction false} FirstDigitsSkips(parts: seq<string>, i: nat, k: nat)
    requires i <= k < |parts| && IsDigits(parts[k])
    requires forall t | i <= t < k :: !IsDigits(parts[t])
    ensures FirstDigits(parts, i) == k
    decreases k - i
  {
    if i < k {
      FirstDigitsSkips(parts, i + 1, k);
    }
  }

  /** A name with a one-token algorithm and a two-token backend keeps
      only the first backend token. */
  lemma ParseOneTwo(alg: string, size: nat, be1: string, be2: string)
    requires Plain([alg]) && Plain([be1, be2])
    ensures ParseSpec(alg + "_" + NatToString(size) + "_" + be1 + "_" + be2 + ".json") == Ok(Entry(alg, size, be1))
  {
    var a, b := [alg], [be1, be2];
    assert a[1..] == [];
    PlainFormatted(a, size, b);
    ParseFormatted(a, size, b);
    JoinOne(alg);
    JoinTwo(be1, be2);
    assert b[..|b| - 1] == [be1];
    JoinOne(be1);
    NameRegroup(alg, NatToString(size), be1, be2);
  }

  lemma NameRegroup(a: string, d: string, b1: string, b2: string)
    ensures a + "_" + d + "_" + (b1 + "_" + b2) + ".json" == a + "_" + d + "_" + b1 + "_" + b2 + ".json"
  {
  }

  /** A name with a two-token algorithm and a one-token backend: the
      algorithm keeps both tokens, the backend is empty. */
  lemma ParseTwoOne(alg1: string, alg2: string, size: nat, be: string)
    requires Plain([alg1, alg2]) && Plain([be]) && !IsDigits(alg2)
    ensures ParseSpec(alg1 + "_" + alg2 + "_" + NatToString(size) + "_" + be + ".json")
         == Ok(Entry(alg1 + "_" + alg2, size, ""))
  {
    var a, b := [alg1, alg2], [be];
    assert a[1..] == [alg2];
    PlainFormatted(a, size, b);
    ParseFormatted(a, size, b);
    JoinTwo(alg1, alg2);
    JoinOne(be);
    assert b[..|b| - 1] == [];
  }

  lemma JoinOne(a: string)
    ensures Join([a], '_') == a
  {
  }

  lemma JoinTwo(a: string, b: string)
    ensures Join([a, b], '_') == a + "_" + b
  {
    assert [a, b][1..] == [b];
  }

  /** The tokenizer on a name of the dataset, as the code has it: the last
      token before ".json" is always dropped, so the simulator name of
      qft_8_aer_simulator.json loses "simulator". */
  lemma QftExample(name: string, alg: string, be1: string, be2: string)
    requires name == "qft_8_aer_simulator.json"
    requires alg == "qft" && be1 == "aer" && be2 == "simulator"
    ensures ParseSpec(name) == Ok(Entry("qft", 8, "aer"))
  {
    QftName(name, alg, be1, be2);
    ParseOneTwo(alg, 8, be1, be2);
  }

  lemma QftName(name: string, alg: string, be1: string, be2: string)
    requires name == "qft_8_aer_simulator.json"
    requires alg == "qft" && be1 == "aer" && be2 == "simulator"
    ensures name == alg + "_" + NatToString(8) + "_" + be1 + "_" + be2 + ".json"
    ensures Plain([alg]) && Plain([be1, be2])
  {
    assert NatToString(8) == "8";
  }

  /** A multi-token algorithm name, and a backend of one token, which the
      dropped last token leaves empty. */
  lemma QuantumVolumeExample(name: string, alg1: string, alg2: string, be: string)
    requires name == "quantum_volume_4_statevector.json"
    requires alg1 == "quantum" && alg2 == "volume" && be == "statevector"
    ensures ParseSpec(name) == Ok(Entry("quantum_volume", 4, ""))
  {
    QuantumVolumeName(name, alg1, alg2, be);
    ParseTwoOne(alg1, alg2, 4, be);
  }

  lemma QuantumVolumeName(name: string, alg1: string, alg2: string, be: string)
    requires name == "quantum_volume_4_statevector.json"
    requires alg1 == "quantum" && alg2 == "volume" && be == "statevector"
    ensures name == alg1 + "_" + alg2 + "_" + NatToString(4) + "_" + be + ".json"
    ensures alg1 + "_" + alg2 == "quantum_volume"
    ensures Plain([alg1, alg2]) && Plain([be]) && !IsDigits(alg2)
  {
    assert NatToString(4) == "4";
    assert !IsDigit(alg2[0]);
  }

  lemma ParseSpecNoSize(name: string, parts: seq<string>)
    requires Split(RemoveAll(name, ".json"), '_') == parts && FirstDigits(parts, 1) == |parts|
    ensures ParseSpec(name) == Err(NoSizeToken)
  {
  }

  lemma ParseSpecNoBackend(name: string, parts: seq<string>)
    requires Split(RemoveAll(name, ".json"), '_') == parts && FirstDigits(parts, 1) + 1 == |parts|
    ensures ParseSpec(name) == Err(NoBackendToken)
  {
  }

  /** Reserved names are skipped. */
  lemma ReservedSkipped()
    ensures ItemSpec(Some("artifacts")) == Ok(None)
    ensures ItemSpec(Some("histories")) == Ok(None)
    ensures ItemSpec(Some("metadata.json")) == Ok(None)
  {
  }

  /** An item without a name is an error (an IndexError in the source). */
  lemma MissingNameError()
    ensures ItemSpec(None) == Err(NoSizeToken)
  {
    RemoveAllAbsent("", ".json");
    ParseSpecNoSize("", [""]);
  }

  /** A name without an all-digit token after the first is an error, even
      when its first token is all digits. */
  lemma LeadingDigitsError(name: string)
    requires name == "7_qft.json"
    ensures ParseSpec(name) == Err(NoSizeToken)
  {
    TwoTokens("7", "qft");
    SevenQftName();
    assert !IsDigit("qft"[0]);
    ParseSpecNoSize(name, ["7", "qft"]);
  }

  lemma SevenQftName()
    ensures "7" + "_" + "qft" + ".json" == "7_qft.json"
  {
  }

  /** A name with nothing after its size token is an error. */
  lemma NoBackendError(name: string)
    requires name == "qft_8.json"
    ensures ParseSpec(name) == Err(NoBackendToken)
  {
    TwoTokens("qft", "8");
    QftEightName();
    assert !IsDigit("qft"[0]);
    ParseSpecNoBackend(name, ["qft", "8"]);
  }

  lemma QftEightName()
    ensures "qft" + "_" + "8" + ".json" == "qft_8.json"
  {
  }

  /** The name a_b.json, for plain a and b, is split into [a, b]. */
  lemma TwoTokens(a: string, b: string)
    requires Plain([a, b])
    ensures Split(RemoveAll(a + "_" + b + ".json", ".json"), '_') == [a, b]
  {
    StemSplits([a, b]);
    assert Join([a, b], '_') == a + "_" + b;
  }

  // ---------------------------------------------------------------------
  // get_metadata's file selection

  /** The names of the listing that start with p, in order. */
  function WithPrefix(items: seq<Option<string>>, p: string): (r: seq<string>)
    ensures forall i | 0 <= i < |r| :: StartsWith(r[i], p)
  {
    if items == [] then []
    else
      var name := items[|items| - 1].GetOr("");
      WithPrefix(items[..|items| - 1], p) + (if StartsWith(name, p) then [name] else [])
  }

  /** f"{algorithm}_{size}_{backend}", the caller's strings as given. */
  function MetadataPrefix(algorithm: string, size: int, backend: string): string
  {
    algorithm + "_" + IntToString(size) + "_" + backend
  }

  /** The files get_metadata fetches: those of the version's listing whose
      name starts with the prefix; none is an error. A selection is never
      empty and comes from a fetched listing of a known version. */
  function MetadataFiles(algorithm: string, size: int, backend: string, version: string, versions: seq<string>,
                         resp: Fetch<seq<Option<string>>>): (r: Result<seq<string>>)
    ensures r.Ok? ==> version in versions && resp.Got? && |r.value| > 0
    ensures r.Ok? ==> forall i | 0 <= i < |r.value| :: StartsWith(r.value[i], MetadataPrefix(algorithm, size, backend))
  {
    if version !in versions then Err(UnknownVersion)
    else match resp
      case Failed(code) => Err(HttpStatus(code))
      case Unreachable => Err(Connection)
      case Got(items) =>
        var files := WithPrefix(items, MetadataPrefix(algorithm, size, backend));
        if files == [] then Err(NoMetadata) else Ok(files)
  }

  /** The selection holds exactly the listed names with the prefix, and
      fails only when there is none. */
  lemma {:induction false} MetadataSelection(algorithm: string, size: int, backend: string, version: string,
                                            versions: seq<string>, items: seq<Option<string>>)
    requires version in versions
    ensures var p := MetadataPrefix(algorithm, size, backend);
      var r := MetadataFiles(algorithm, size, backend, version, versions, Got(items));
      && (r == Err(NoMetadata) <==> forall i | 0 <= i < |items| :: !StartsWith(items[i].GetOr(""), p))
      && (r.Ok? ==> forall name :: name in r.value <==> StartsWith(name, p) && exists i | 0 <= i < |items| :: items[i].GetOr("") == name)
  {
    var p := MetadataPrefix(algorithm, size, backend);
    var files := WithPrefix(items, p);
    WithPrefixMembers(items, p);
    forall i | 0 <= i < |items| && StartsWith(items[i].GetOr(""), p)
      ensures items[i].GetOr("") in files
    {
    }
    if files != [] {
      assert files[0] in files;
    }
  }

  lemma {:induction false} WithPrefixMembers(items: seq<Option<string>>, p: string)
    ensures forall name :: name in WithPrefix(items, p) <==> StartsWith(name, p) && exists i | 0 <= i < |items| :: items[i].GetOr("") == name
  {
    if items != [] {
      var init := items[..|items| - 1];
      WithPrefixMembers(init, p);
      assert forall i | 0 <= i < |init| :: init[i] == items[i];
      forall name
        ensures name in WithPrefix(items, p) <==> StartsWith(name, p) && exists i | 0 <= i < |items| :: items[i].GetOr("") == name
      {
        if StartsWith(name, p) && (exists i | 0 <= i < |items| :: items[i].GetOr("") == name) {
          var i :| 0 <= i < |items| && items[i].GetOr("") == name;
          if i < |init| {
            assert init[i].GetOr("") == name;
          }
        }
      }
    }
  }
}

/**
  The prerender cache: files of the build output kept in memory, and checked against the
  disk's modification time and size on every request.

  The disk changes at will between any two steps. A request looks in the cache and at the
  file in one step; on a miss it reads metadata, payload and sidecar in three, and inserts in
  a fifth.
 */
module Prerender {
  import opened Wrappers
  import opened Bytes

  const CACHE_CAPACITY: nat := 4096

  // ---------------------------------------------------------------- keys

  function TrimStart(path: string): string {
    if path != "" && path[0] == '/' then TrimStart(path[1..]) else path
  }

  function TrimEnd(path: string): string {
    if path != "" && path[|path| - 1] == '/' then TrimEnd(path[..|path| - 1]) else path
  }

  predicate DotDotAt(path: string, i: nat) { i + 1 < |path| && path[i] == '.' && path[i + 1] == '.' }

  predicate HasDotDot(path: string) { exists i :: 0 <= i < |path| && DotDotAt(path, i) }

  function Stem(path: string): string {
    var trimmed := TrimEnd(TrimStart(path));
    if trimmed == "" then "index" else trimmed
  }

  function Suffix(isRsc: bool): string { if isRsc then ".rsc" else ".html" }

  /** The file a request path stands for, relative to the application directory. */
  function LookupKey(path: string, isRsc: bool): Option<string> {
    var trimmed := TrimEnd(TrimStart(path));
    if "/_next/" <= path || "/api/" <= path then None
    else if HasDotDot(trimmed) || '\\' in trimmed then None
    else Some(Stem(path) + Suffix(isRsc))
  }

  predicate Slashes(s: string) { forall i :: 0 <= i < |s| ==> s[i] == '/' }

  predicate Bare(s: string) { s != "" ==> s[0] != '/' && s[|s| - 1] != '/' }

  lemma {:induction false} TrimStartIs(lead: string, rest: string)
    requires Slashes(lead) && (rest != "" ==> rest[0] != '/')
    ensures TrimStart(lead + rest) == rest
  {
    if lead == "" {
      assert lead + rest == rest;
    } else {
      assert (lead + rest)[1..] == lead[1..] + rest;
      TrimStartIs(lead[1..], rest);
    }
  }

  lemma {:induction false} TrimEndIs(rest: string, trail: string)
    requires Slashes(trail) && (rest != "" ==> rest[|rest| - 1] != '/')
    ensures TrimEnd(rest + trail) == rest
  {
    if trail == "" {
      assert rest + trail == rest;
    } else {
      assert (rest + trail)[..|rest + trail| - 1] == rest + trail[..|trail| - 1];
      TrimEndIs(rest, trail[..|trail| - 1]);
    }
  }

  /** Slashes at either end do not matter, and nothing between them is the index page. */
  lemma StemIs(lead: string, core: string, trail: string)
    requires Slashes(lead) && Slashes(trail) && Bare(core)
    ensures TrimEnd(TrimStart(lead + core + trail)) == core
    ensures Stem(lead + core + trail) == if core == "" then "index" else core
  {
    if core == "" {
      assert lead + core + trail == (lead + trail) + "";
      TrimStartIs(lead + trail, "");
    } else {
      assert lead + core + trail == lead + (core + trail);
      TrimStartIs(lead, core + trail);
      TrimEndIs(core, trail);
    }
  }

  lemma {:induction false} TrimStartParts(path: string) returns (lead: string)
    ensures path == lead + TrimStart(path) && Slashes(lead)
    ensures TrimStart(path) != "" ==> TrimStart(path)[0] != '/'
  {
    if path != "" && path[0] == '/' {
      var more := TrimStartParts(path[1..]);
      lead := [path[0]] + more;
    } else {
      lead := "";
    }
  }

  lemma {:induction false} TrimEndParts(path: string) returns (trail: string)
    ensures path == TrimEnd(path) + trail && Slashes(trail)
    ensures TrimEnd(path) != "" ==> TrimEnd(path)[0] == path[0] && TrimEnd(path)[|TrimEnd(path)| - 1] != '/'
  {
    if path != "" && path[|path| - 1] == '/' {
      var more := TrimEndParts(path[..|path| - 1]);
      trail := more + [path[|path| - 1]];
    } else {
      trail := "";
    }
  }

  /** Every path is slashes, a stem that neither begins nor ends in one, and slashes. */
  lemma PathParts(path: string) returns (lead: string, core: string, trail: string)
    ensures path == lead + core + trail && Slashes(lead) && Slashes(trail) && Bare(core)
    ensures core == TrimEnd(TrimStart(path))
  {
    lead := TrimStartParts(path);
    trail := TrimEndParts(TrimStart(path));
    core := TrimEnd(TrimStart(path));
    assert path == lead + (core + trail) == lead + core + trail;
  }

  lemma DotsAreInside(lead: string, core: string, trail: string)
    requires Slashes(lead) && Slashes(trail)
    ensures HasDotDot(lead + core + trail) <==> HasDotDot(core)
    ensures '\\' in lead + core + trail <==> '\\' in core
  {
    var path := lead + core + trail;
    if HasDotDot(path) {
      var i :| 0 <= i < |path| && DotDotAt(path, i);
      assert path[i] == '.' && path[i + 1] == '.';
      assert |lead| <= i && i + 1 < |lead| + |core|;
      assert DotDotAt(core, i - |lead|);
    }
    if HasDotDot(core) {
      var i :| 0 <= i < |core| && DotDotAt(core, i);
      assert DotDotAt(path, |lead| + i);
    }
  }

  /** A path stands for a file unless it asks for build output or the api, climbs, or holds a backslash. */
  lemma LookupIs(lead: string, core: string, trail: string, isRsc: bool)
    requires Slashes(lead) && Slashes(trail) && Bare(core)
    ensures var path := lead + core + trail;
      LookupKey(path, isRsc)
      == if "/_next/" <= path || "/api/" <= path || HasDotDot(path) || '\\' in path then None
         else Some((if core == "" then "index" else core) + (if isRsc then ".rsc" else ".html"))
  {
    StemIs(lead, core, trail);
    DotsAreInside(lead, core, trail);
  }

  /** What precedes the last dot of a key, if it has one. */
  function BeforeLastDot(key: string): Option<string> {
    if key == "" then None
    else if key[|key| - 1] == '.' then Some(key[..|key| - 1])
    else BeforeLastDot(key[..|key| - 1])
  }

  lemma SuffixesDiffer(stem1: string, stem2: string)
    ensures stem1 + ".rsc" != stem2 + ".html"
  {
    assert (stem1 + ".rsc")[|stem1| + 3] == 'c';
    assert (stem2 + ".html")[|stem2| + 4] == 'l';
  }

  /** Two requests share a key exactly if they ask for the same stem in the same form. */
  lemma KeysAgreeIff(path1: string, isRsc1: bool, path2: string, isRsc2: bool)
    requires LookupKey(path1, isRsc1).Some? && LookupKey(path2, isRsc2).Some?
    ensures LookupKey(path1, isRsc1) == LookupKey(path2, isRsc2) <==> isRsc1 == isRsc2 && Stem(path1) == Stem(path2)
  {
    SuffixesDiffer(Stem(path1), Stem(path2));
    SuffixesDiffer(Stem(path2), Stem(path1));
    if isRsc1 == isRsc2 && LookupKey(path1, isRsc1) == LookupKey(path2, isRsc2) {
      var key := Stem(path1) + Suffix(isRsc1);
      assert Stem(path1) == key[..|key| - |Suffix(isRsc1)|];
    }
  }

  /** Both forms of a page share one sidecar, found by cutting the key at its last dot. */
  lemma SidecarIsShared(stem: string, isRsc: bool)
    ensures BeforeLastDot(stem + Suffix(isRsc)) == Some(stem)
  {
    var key := stem + Suffix(isRsc);
    assert key[..|key| - 1] == stem + Suffix(isRsc)[..|Suffix(isRsc)| - 1];
    assert Suffix(isRsc) == "." + Suffix(isRsc)[1..];
    CutLetters(stem, Suffix(isRsc)[1..]);
    Assoc(stem, ".", Suffix(isRsc)[1..]);
  }

  lemma {:induction false} CutLetters(stem: string, letters: string)
    requires '.' !in letters
    ensures BeforeLastDot(stem + "." + letters) == Some(stem)
  {
    var key := stem + "." + letters;
    if letters == "" {
      assert key[..|key| - 1] == stem;
    } else {
      assert key[..|key| - 1] == stem + "." + letters[..|letters| - 1];
      CutLetters(stem, letters[..|letters| - 1]);
    }
  }

  // ---------------------------------------------------------------- the disk and the cache

  /** What a path names: `content` is None where it cannot be read, `mtime` where it is unknown. */
  datatype Node = Node(isFile: bool, content: Option<seq<Byte>>, mtime: Option<int>, size: nat)

  type Disk = map<string, Node>

  datatype Asset = Asset(bytes: seq<Byte>, etag: string, contentType: string, headers: seq<(string, string)>,
                         mtime: int, size: nat)

  type Cache = map<string, Asset>

  /** The digest of a payload, and the headers a sidecar yields (none if it does not parse). */
  datatype Env = Env(etag: seq<Byte> -> string, headers: seq<Byte> -> seq<(string, string)>)

  function Sidecar(disk: Disk, key: string): Option<seq<Byte>> {
    match BeforeLastDot(key)
    case None => None
    case Some(stem) => if stem + ".meta" in disk then disk[stem + ".meta"].content else None
  }

  function MetaHeaders(env: Env, disk: Disk, key: string): seq<(string, string)> {
    match Sidecar(disk, key)
    case None => []
    case Some(raw) => env.headers(raw)
  }

  /** What a load yields that finds these disks when it reads metadata, payload and sidecar. */
  function Assemble(env: Env, atStat: Disk, atRead: Disk, atMeta: Disk, key: string, isRsc: bool): Option<Asset> {
    if key !in atStat || !atStat[key].isFile then None
    else if key !in atRead || atRead[key].content == None || atStat[key].mtime == None then None
    else
      var bytes := atRead[key].content.value;
      Some(Asset(bytes, env.etag(bytes), if isRsc then "text/x-component" else "text/html; charset=utf-8",
                 MetaHeaders(env, atMeta, key), atStat[key].mtime.value, atStat[key].size))
  }

  /** `load_asset` on a disk that holds still. */
  function LoadAsset(env: Env, disk: Disk, key: string, isRsc: bool): Option<Asset> {
    Assemble(env, disk, disk, disk, key, isRsc)
  }

  /**
    A load on a disk that holds still: the page at its stem and suffix, readable and with a known
    time, its digest and content type, and the headers its sidecar gives, none if there is none.
   */
  lemma LoadIs(env: Env, disk: Disk, stem: string, isRsc: bool, asset: Asset)
    ensures var key := stem + (if isRsc then ".rsc" else ".html");
      LoadAsset(env, disk, key, isRsc) == Some(asset)
      <==> && key in disk && disk[key].isFile && disk[key].content == Some(asset.bytes)
           && disk[key].mtime == Some(asset.mtime) && disk[key].size == asset.size
           && asset.etag == env.etag(asset.bytes)
           && asset.contentType == (if isRsc then "text/x-component" else "text/html; charset=utf-8")
           && asset.headers == (if stem + ".meta" in disk && disk[stem + ".meta"].content.Some?
                                then env.headers(disk[stem + ".meta"].content.value) else [])
  {
    SidecarIsShared(stem, isRsc);
  }

  predicate FileMatches(disk: Disk, key: string, asset: Asset) {
    key in disk && disk[key].size == asset.size && disk[key].mtime == Some(asset.mtime)
  }

  predicate Hits(disk: Disk, cache: Cache, key: string) { key in cache && FileMatches(disk, key, cache[key]) }

  function Insert<V>(cache: map<string, V>, key: string, asset: V): map<string, V> {
    (if |cache| >= CACHE_CAPACITY then map[] else cache)[key := asset]
  }

  /** Below its capacity the cache gains an entry and keeps the others; at its capacity it starts again. */
  lemma InsertIs<V>(cache: map<string, V>, key: string, asset: V, other: string)
    requires other != key
    ensures key in Insert(cache, key, asset) && Insert(cache, key, asset)[key] == asset
    ensures |cache| < 4096 ==>
      && (other in Insert(cache, key, asset) <==> other in cache)
      && (other in cache ==> Insert(cache, key, asset)[other] == cache[other])
    ensures |cache| >= 4096 ==> other !in Insert(cache, key, asset)
  {}

  /** `resolve_asset` with nothing else going on: the new cache and the answer. */
  function Resolve(env: Env, disk: Disk, cache: Cache, key: string, isRsc: bool): (Cache, Option<Asset>) {
    if Hits(disk, cache, key) then (cache, Some(cache[key])) else
      var loaded := LoadAsset(env, disk, key, isRsc);
      match loaded
      case None => (cache, None)
      case Some(asset) => (Insert(cache, key, asset), loaded)
  }

  /** On an unchanged disk the same request is answered again from the cache, which stays as it is. */
  lemma RepeatIsHit(env: Env, disk: Disk, cache: Cache, key: string, isRsc: bool)
    requires Resolve(env, disk, cache, key, isRsc).1.Some?
    ensures var (cache', asset) := Resolve(env, disk, cache, key, isRsc);
            Hits(disk, cache', key) && Resolve(env, disk, cache', key, isRsc) == (cache', asset)
  {}

  /** A sidecar rewritten by itself is not noticed: the payload's time and size still match. */
  lemma SidecarAloneIsStale(env: Env, raw1: seq<Byte>, raw2: seq<Byte>, page: Node)
    requires env.headers(raw1) != env.headers(raw2)
    requires page.isFile && page.content.Some? && page.mtime.Some?
    ensures var earlier: Disk := map["a.html" := page, "a.meta" := Node(true, Some(raw1), Some(1), 1)];
            var now: Disk := map["a.html" := page, "a.meta" := Node(true, Some(raw2), Some(2), 1)];
            var cache := Resolve(env, earlier, map[], "a.html", false).0;
            Resolve(env, now, cache, "a.html", false).1 != LoadAsset(env, now, "a.html", false)
  {
    SidecarIsShared("a", false);
    assert "a" + ".html" == "a.html" && "a" + ".meta" == "a.meta";
  }

  predicate IsRscKey(key: string) { |key| >= 4 && key[|key| - 4..] == ".rsc" }

  lemma KeySaysRsc(path: string, isRsc: bool)
    requires LookupKey(path, isRsc).Some?
    ensures IsRscKey(LookupKey(path, isRsc).value) == isRsc
  {
    var key := LookupKey(path, isRsc).value;
    if isRsc {
      assert key[|key| - 4..] == ".rsc";
    } else {
      assert key[|key| - 1] == 'l';
      assert key[|key| - 4..][3] == 'l';
    }
  }

  lemma InsertFits<V>(cache: map<string, V>, key: string, asset: V)
    requires |cache| <= CACHE_CAPACITY
    ensures |Insert(cache, key, asset)| <= CACHE_CAPACITY
  {}

  // ---------------------------------------------------------------- requests that nothing interrupts

  datatype Event =
    | Tick                              // the disk moves on to its next moment
    | Ask(path: string, isRsc: bool)    // a request, answered at once

  /** An answer given at a moment; `hit` says that it came out of the cache. */
  datatype Done = Done(at: nat, key: string, isRsc: bool, asset: Option<Asset>, hit: bool)

  datatype Served = Served(now: nat, cache: Cache, log: seq<Done>)

  function After(env: Env, disks: seq<Disk>, s: Served, event: Event): (r: Served)
    requires s.now < |disks|
    ensures s.now <= r.now < |disks| && s.log <= r.log
  {
    match event
    case Tick => if s.now + 1 < |disks| then s.(now := s.now + 1) else s
    case Ask(path, isRsc) =>
      match LookupKey(path, isRsc)
      case None => s
      case Some(key) =>
        var (cache, asset) := Resolve(env, disks[s.now], s.cache, key, isRsc);
        Served(s.now, cache, s.log + [Done(s.now, key, isRsc, asset, Hits(disks[s.now], s.cache, key))])
  }

  /** What has been served after these events, over the moments of a disk's history. */
  function Serve(env: Env, disks: seq<Disk>, events: seq<Event>): (r: Served)
    requires disks != []
    ensures r.now < |disks|
  {
    if events == [] then Served(0, map[], [])
    else After(env, disks, Serve(env, disks, events[..|events| - 1]), events[|events| - 1])
  }

  /** The answer is what a load would have given at its moment. */
  predicate Right(env: Env, disks: seq<Disk>, done: Done)
    requires done.at < |disks|
  {
    done.asset == LoadAsset(env, disks[done.at], done.key, done.isRsc)
  }

  ghost predicate AllRight(env: Env, disks: seq<Disk>, log: seq<Done>) {
    forall q :: 0 <= q < |log| ==> log[q].at < |disks| && Right(env, disks, log[q])
  }

  /** A load at moment j, its file unchanged in time and size at moment k, is a load at k too. */
  predicate Tells(env: Env, disks: seq<Disk>, j: nat, k: nat, key: string, isRsc: bool)
    requires j < |disks| && k < |disks|
  {
    var asset := LoadAsset(env, disks[j], key, isRsc);
    asset.Some? && FileMatches(disks[k], key, asset.value) ==> LoadAsset(env, disks[k], key, isRsc) == asset
  }

  /** Over the history, time and size tell whether any page that can be asked for has changed. */
  ghost predicate StampsTell(env: Env, disks: seq<Disk>) {
    forall j, k, path, isRsc :: 0 <= j <= k < |disks| && LookupKey(path, isRsc).Some?
      ==> Tells(env, disks, j, k, LookupKey(path, isRsc).value, isRsc)
  }

  /** The page was loaded, and so cached, to give this answer. */
  predicate Loads(done: Done) { !done.hit && done.asset.Some? }

  /** Of the answers before q, p is the last that loaded its key. */
  predicate LastLoad(log: seq<Done>, p: nat, q: nat) {
    && p < q <= |log|
    && Loads(log[p])
    && (forall n :: p < n < q && log[n].key == log[p].key ==> !Loads(log[n]))
  }

  /** Every cached entry is what the last load of its key gave. */
  ghost predicate Sourced(env: Env, disks: seq<Disk>, s: Served) {
    forall key :: key in s.cache ==> exists p: nat ::
      LastLoad(s.log, p, |s.log|) && s.log[p].key == key && s.log[p].asset == Some(s.cache[key])
  }

  /** What the log says of itself: loads are right, keys tell their form, and a hit repeats the last load of its key. */
  ghost predicate LogInv(env: Env, disks: seq<Disk>, s: Served) {
    && (forall q :: 0 <= q < |s.log| ==> s.log[q].at <= s.now && s.log[q].isRsc == IsRscKey(s.log[q].key))
    && (forall q :: 0 <= q < |s.log| && !s.log[q].hit ==> s.log[q].at < |disks| && Right(env, disks, s.log[q]))
    && (forall q :: 0 <= q < |s.log| && s.log[q].hit ==> exists p: nat :: SourceOf(disks, s.log, p, q))
    && (forall p, q :: 0 <= p < q < |s.log| ==> s.log[p].at <= s.log[q].at)
  }

  predicate SourceOf(disks: seq<Disk>, log: seq<Done>, p: nat, q: nat) {
    && q < |log| && LastLoad(log, p, q) && log[p].key == log[q].key
    && log[p].asset == log[q].asset && log[q].asset.Some?
    && log[q].at < |disks| && FileMatches(disks[log[q].at], log[q].key, log[q].asset.value)
  }

  lemma LastLoadLater(log: seq<Done>, p: nat, q: nat, done: Done)
    requires LastLoad(log, p, |log|) && q <= |log| + 1 && p < q && (done.key == log[p].key ==> !Loads(done))
    ensures LastLoad(log + [done], p, q)
  {
    var log' := log + [done];
    forall n | p < n < q && log'[n].key == log'[p].key ensures !Loads(log'[n]) {
      assert n < |log| ==> log'[n] == log[n];
    }
  }

  lemma SourceLater(disks: seq<Disk>, log: seq<Done>, p: nat, q: nat, done: Done)
    requires SourceOf(disks, log, p, q)
    ensures SourceOf(disks, log + [done], p, q)
  {
    var log' := log + [done];
    forall n | p < n < q && log'[n].key == log'[p].key ensures !Loads(log'[n]) {
      assert log'[n] == log[n];
    }
  }

  lemma AskKeepsSourced(env: Env, disks: seq<Disk>, s: Served, key: string, isRsc: bool, s': Served, done: Done)
    requires s.now < |disks| && Sourced(env, disks, s) && s'.log == s.log + [done]
    requires (s'.cache, done.asset) == Resolve(env, disks[s.now], s.cache, key, isRsc)
    requires done.key == key && done.hit == Hits(disks[s.now], s.cache, key)
    ensures Sourced(env, disks, s')
  {
    forall k | k in s'.cache
      ensures exists p: nat ::
                LastLoad(s'.log, p, |s'.log|) && s'.log[p].key == k && s'.log[p].asset == Some(s'.cache[k])
    {
      if k == key && Loads(done) {
        assert LastLoad(s'.log, |s.log|, |s'.log|);
      } else {
        var p: nat :| LastLoad(s.log, p, |s.log|) && s.log[p].key == k && s.log[p].asset == Some(s.cache[k]);
        LastLoadLater(s.log, p, |s.log| + 1, done);
      }
    }
  }

  lemma AskHasSource(env: Env, disks: seq<Disk>, s: Served, done: Done)
    requires s.now < |disks| && Sourced(env, disks, s)
    requires done.at == s.now && done.hit && Hits(disks[s.now], s.cache, done.key)
    requires done.asset == Some(s.cache[done.key])
    ensures exists p: nat :: SourceOf(disks, s.log + [done], p, |s.log|)
  {
    var p: nat :| LastLoad(s.log, p, |s.log|) && s.log[p].key == done.key && s.log[p].asset == Some(s.cache[done.key]);
    LastLoadLater(s.log, p, |s.log|, done);
    assert SourceOf(disks, s.log + [done], p, |s.log|);
  }

  /** A log grows by an answer that is a right load, or a hit with its source. */
  lemma LogGrows(env: Env, disks: seq<Disk>, s: Served, s': Served, done: Done)
    requires LogInv(env, disks, s) && s'.now == s.now < |disks| && s'.log == s.log + [done]
    requires done.at == s.now && done.isRsc == IsRscKey(done.key)
    requires if done.hit then exists p: nat :: SourceOf(disks, s'.log, p, |s.log|) else Right(env, disks, done)
    ensures LogInv(env, disks, s')
  {
    forall q | 0 <= q < |s'.log| && s'.log[q].hit ensures exists p: nat :: SourceOf(disks, s'.log, p, q) {
      if q < |s.log| {
        var p: nat :| SourceOf(disks, s.log, p, q);
        SourceLater(disks, s.log, p, q, done);
      }
    }
  }

  lemma AskKeepsLog(env: Env, disks: seq<Disk>, s: Served, path: string, isRsc: bool)
    requires s.now < |disks| && LookupKey(path, isRsc).Some? && Sourced(env, disks, s) && LogInv(env, disks, s)
    ensures LogInv(env, disks, After(env, disks, s, Ask(path, isRsc)))
  {
    KeySaysRsc(path, isRsc);
    var s' := After(env, disks, s, Ask(path, isRsc));
    var done := s'.log[|s.log|];
    if done.hit {
      AskHasSource(env, disks, s, done);
    }
    LogGrows(env, disks, s, s', done);
  }

  lemma {:induction false} ServeInv(env: Env, disks: seq<Disk>, events: seq<Event>)
    requires disks != []
    ensures Sourced(env, disks, Serve(env, disks, events)) && LogInv(env, disks, Serve(env, disks, events))
  {
    if events != [] {
      var s, event := Serve(env, disks, events[..|events| - 1]), events[|events| - 1];
      ServeInv(env, disks, events[..|events| - 1]);
      if event.Ask? && LookupKey(event.path, event.isRsc).Some? {
        var s' := After(env, disks, s, event);
        AskKeepsSourced(env, disks, s, LookupKey(event.path, event.isRsc).value, event.isRsc, s', s'.log[|s.log|]);
        AskKeepsLog(env, disks, s, event.path, event.isRsc);
      }
    }
  }

  /** Answer q is a hit, and p is when its key was last loaded. */
  predicate HitOf(log: seq<Done>, p: nat, q: nat) {
    p < q < |log| && log[q].hit && LastLoad(log, p, q) && log[p].key == log[q].key
  }

  /** Time and size tell, from the moments at which pages were actually loaded to those at which they were hit. */
  ghost predicate HitsTell(env: Env, disks: seq<Disk>, log: seq<Done>) {
    forall p: nat, q: nat :: HitOf(log, p, q)
      ==> log[p].at <= log[q].at < |disks| && Tells(env, disks, log[p].at, log[q].at, log[q].key, log[q].isRsc)
  }

  /**
    One run: its answers are all what loads would have given if and only if, for every hit, the
    page loads at the moment of the hit as it did when it was last actually loaded.
   */
  lemma RunRightIff(env: Env, disks: seq<Disk>, events: seq<Event>)
    requires disks != []
    ensures AllRight(env, disks, Serve(env, disks, events).log) <==> HitsTell(env, disks, Serve(env, disks, events).log)
  {
    ServeInv(env, disks, events);
    var log := Serve(env, disks, events).log;
    if HitsTell(env, disks, log) {
      forall q | 0 <= q < |log| ensures log[q].at < |disks| && Right(env, disks, log[q]) {
        if log[q].hit {
          var p: nat :| SourceOf(disks, log, p, q);
          assert HitOf(log, p, q);
          assert Tells(env, disks, log[p].at, log[q].at, log[q].key, log[q].isRsc);
          assert Right(env, disks, log[p]);
        }
      }
    }
    if AllRight(env, disks, log) {
      forall p: nat, q: nat | HitOf(log, p, q)
        ensures log[p].at <= log[q].at < |disks| && Tells(env, disks, log[p].at, log[q].at, log[q].key, log[q].isRsc)
      {
        var source: nat :| SourceOf(disks, log, source, q);
        SameSource(log, p, source, q);
        assert Right(env, disks, log[p]) && Right(env, disks, log[q]);
      }
    }
  }

  lemma SameSource(log: seq<Done>, p1: nat, p2: nat, q: nat)
    requires LastLoad(log, p1, q) && LastLoad(log, p2, q) && log[p1].key == log[p2].key
    ensures p1 == p2
  {}

  // ---------------------------------------------------------------- which histories are safe

  function Ticks(n: nat): seq<Event> { seq(n, _ => Tick) }

  lemma {:induction false} ServeTicks(env: Env, disks: seq<Disk>, events: seq<Event>, n: nat)
    requires disks != [] && Serve(env, disks, events).now + n < |disks|
    ensures var s := Serve(env, disks, events); Serve(env, disks, events + Ticks(n)) == s.(now := s.now + n)
  {
    if n == 0 {
      assert events + Ticks(0) == events;
    } else {
      ServeTicks(env, disks, events, n - 1);
      assert (events + Ticks(n))[..|events| + n - 1] == events + Ticks(n - 1);
    }
  }

  lemma ServeAsk(env: Env, disks: seq<Disk>, events: seq<Event>, path: string, isRsc: bool)
    requires disks != []
    ensures Serve(env, disks, events + [Ask(path, isRsc)])
            == After(env, disks, Serve(env, disks, events), Ask(path, isRsc))
  {
    assert (events + [Ask(path, isRsc)])[..|events|] == events;
  }

  /** What asking once at moment j leaves. */
  lemma AskOnce(env: Env, disks: seq<Disk>, j: nat, path: string, isRsc: bool) returns (events: seq<Event>)
    requires j < |disks| && LookupKey(path, isRsc).Some?
    requires LoadAsset(env, disks[j], LookupKey(path, isRsc).value, isRsc).Some?
    ensures var s, key := Serve(env, disks, events), LookupKey(path, isRsc).value;
      s.now == j && |s.log| == 1 && key in s.cache && Some(s.cache[key]) == LoadAsset(env, disks[j], key, isRsc)
  {
    assert Serve(env, disks, []) == Served(0, map[], []);
    ServeTicks(env, disks, [], j);
    events := [] + Ticks(j) + [Ask(path, isRsc)];
    ServeAsk(env, disks, [] + Ticks(j), path, isRsc);
  }

  lemma AskHits(env: Env, disks: seq<Disk>, s: Served, path: string, isRsc: bool)
    requires s.now < |disks| && LookupKey(path, isRsc).Some?
    requires Hits(disks[s.now], s.cache, LookupKey(path, isRsc).value)
    ensures var key := LookupKey(path, isRsc).value;
      After(env, disks, s, Ask(path, isRsc)).log == s.log + [Done(s.now, key, isRsc, Some(s.cache[key]), true)]
  {}

  /** The run that asks at moment j and again at moment k. */
  lemma AskTwice(env: Env, disks: seq<Disk>, j: nat, k: nat, path: string, isRsc: bool) returns (events: seq<Event>)
    requires j <= k < |disks| && LookupKey(path, isRsc).Some?
    requires var key := LookupKey(path, isRsc).value;
      var asset := LoadAsset(env, disks[j], key, isRsc);
      asset.Some? && FileMatches(disks[k], key, asset.value)
    ensures var log, key := Serve(env, disks, events).log, LookupKey(path, isRsc).value;
      |log| == 2 && log[1] == Done(k, key, isRsc, LoadAsset(env, disks[j], key, isRsc), true)
  {
    var first := AskOnce(env, disks, j, path, isRsc);
    events := AskLater(env, disks, first, k, path, isRsc);
  }

  lemma AskLater(env: Env, disks: seq<Disk>, first: seq<Event>, k: nat, path: string, isRsc: bool)
    returns (events: seq<Event>)
    requires disks != [] && Serve(env, disks, first).now <= k < |disks| && LookupKey(path, isRsc).Some?
    requires Hits(disks[k], Serve(env, disks, first).cache, LookupKey(path, isRsc).value)
    ensures var s, key := Serve(env, disks, first), LookupKey(path, isRsc).value;
      Serve(env, disks, events).log == s.log + [Done(k, key, isRsc, Some(s.cache[key]), true)]
  {
    var n := k - Serve(env, disks, first).now;
    ServeTicks(env, disks, first, n);
    AskAgain(env, disks, first + Ticks(n), path, isRsc);
    events := first + Ticks(n) + [Ask(path, isRsc)];
  }

  lemma AskAgain(env: Env, disks: seq<Disk>, events: seq<Event>, path: string, isRsc: bool)
    requires disks != [] && LookupKey(path, isRsc).Some?
    requires var s := Serve(env, disks, events); Hits(disks[s.now], s.cache, LookupKey(path, isRsc).value)
    ensures var s, key := Serve(env, disks, events), LookupKey(path, isRsc).value;
      Serve(env, disks, events + [Ask(path, isRsc)]).log == s.log + [Done(s.now, key, isRsc, Some(s.cache[key]), true)]
  {
    AskHits(env, disks, Serve(env, disks, events), path, isRsc);
    ServeAsk(env, disks, events, path, isRsc);
  }

  /**
    All runs: whatever is asked and when, every answer is what a load would have given at its
    moment, if and only if the history lets time and size tell.
   */
  lemma AlwaysRightIff(env: Env, disks: seq<Disk>)
    requires disks != []
    ensures (forall events :: AllRight(env, disks, Serve(env, disks, events).log)) <==> StampsTell(env, disks)
  {
    if StampsTell(env, disks) {
      forall events ensures AllRight(env, disks, Serve(env, disks, events).log) {
        ToldIsRight(env, disks, events);
      }
    }
    if !StampsTell(env, disks) {
      var events := UntoldGoesWrong(env, disks);
    }
  }

  lemma UntoldGoesWrong(env: Env, disks: seq<Disk>) returns (events: seq<Event>)
    requires disks != [] && !StampsTell(env, disks)
    ensures !AllRight(env, disks, Serve(env, disks, events).log)
  {
    var j, k, path, isRsc :| 0 <= j <= k < |disks| && LookupKey(path, isRsc).Some?
      && !Tells(env, disks, j, k, LookupKey(path, isRsc).value, isRsc);
    events := AskTwice(env, disks, j, k, path, isRsc);
    assert !Right(env, disks, Serve(env, disks, events).log[1]);
  }

  /** Every key of the log was asked for. */
  predicate Asked(done: Done, path: string) { LookupKey(path, done.isRsc) == Some(done.key) }

  lemma {:induction false} LogWasAsked(env: Env, disks: seq<Disk>, events: seq<Event>, q: nat) returns (path: string)
    requires disks != [] && q < |Serve(env, disks, events).log|
    ensures Asked(Serve(env, disks, events).log[q], path)
  {
    var s, event := Serve(env, disks, events[..|events| - 1]), events[|events| - 1];
    if q < |s.log| {
      path := LogWasAsked(env, disks, events[..|events| - 1], q);
    } else {
      path := event.path;
    }
  }

  lemma ToldIsRight(env: Env, disks: seq<Disk>, events: seq<Event>)
    requires disks != [] && StampsTell(env, disks)
    ensures AllRight(env, disks, Serve(env, disks, events).log)
  {
    RunRightIff(env, disks, events);
    ServeInv(env, disks, events);
    var log := Serve(env, disks, events).log;
    forall p: nat, q: nat | HitOf(log, p, q)
      ensures log[p].at <= log[q].at < |disks| && Tells(env, disks, log[p].at, log[q].at, log[q].key, log[q].isRsc)
    {
      var path := LogWasAsked(env, disks, events, q);
      assert Tells(env, disks, log[p].at, log[q].at, LookupKey(path, log[q].isRsc).value, log[q].isRsc);
    }
  }

  // ---------------------------------------------------------------- requests that interleave

  /** The moments at which a load reads metadata, payload and sidecar. */
  datatype Moments = Moments(stat: nat, read: nat, meta: nat)

  /** A completed load. */
  datatype LoadDone = LoadDone(key: string, moments: Moments, asset: Asset)

  /** A look at the cache and the file. */
  datatype Look = Look(key: string, at: nat)

  /** A cached asset; `load` says which completed load it came from. */
  datatype Cached = Cached(asset: Asset, load: nat)

  datatype Request =
    | Idle
    | Missed(key: string, isRsc: bool, since: nat)             // nothing usable was cached
    | Statted(key: string, isRsc: bool, since: nat, stat: nat)
    | Fetched(key: string, isRsc: bool, since: nat, stat: nat, read: nat)
    | Loaded(key: string, isRsc: bool, since: nat, load: nat)  // not yet inserted

  /** Where an answer came from: a load of its own, a hit on an earlier load, or a moment with nothing to load. */
  datatype Source = Load(load: nat) | Hit(load: nat, look: nat) | Nothing(at: nat)

  /** An answer, and the moments at which its request began and ended. */
  datatype Answer = Answer(key: string, isRsc: bool, asset: Option<Asset>, source: Source, since: nat, until: nat)

  datatype State = State(
    disks: seq<Disk>, cache: map<string, Cached>, requests: seq<Request>,
    // what happened so far
    answers: seq<Answer>, loads: seq<LoadDone>, looks: seq<Look>)

  datatype Step =
    | Change(disk: Disk)                            // files are written or deleted
    | Begin(r: nat, path: string, isRsc: bool)      // look up, and answer a hit
    | Proceed(r: nat)                               // one more step of a load, or its insertion

  function Now(s: State): nat
    requires s.disks != []
  {
    |s.disks| - 1
  }

  predicate InOrder(n: nat, moments: Moments) { moments.stat <= moments.read <= moments.meta < n }

  predicate RequestFormed(s: State, request: Request) {
    match request
    case Idle => true
    case Missed(key, isRsc, since) => isRsc == IsRscKey(key) && since < |s.disks|
    case Statted(key, isRsc, since, stat) => isRsc == IsRscKey(key) && since <= stat < |s.disks|
    case Fetched(key, isRsc, since, stat, read) => isRsc == IsRscKey(key) && since <= stat <= read < |s.disks|
    case Loaded(key, isRsc, since, load) =>
      isRsc == IsRscKey(key) && load < |s.loads| && s.loads[load].key == key && since <= s.loads[load].moments.stat
  }

  predicate Formed(s: State) {
    s.disks != [] && forall r :: 0 <= r < |s.requests| ==> RequestFormed(s, s.requests[r])
  }

  function At(s: State, r: nat, request: Request): (s': State)
    requires Formed(s) && r < |s.requests| && RequestFormed(s, request)
    ensures Formed(s')
  {
    s.(requests := s.requests[r := request])
  }

  function Reply(s: State, r: nat, asset: Option<Asset>, source: Source, key: string, isRsc: bool, since: nat)
    : (s': State)
    requires Formed(s) && r < |s.requests|
    ensures Formed(s')
  {
    At(s, r, Idle).(answers := s.answers + [Answer(key, isRsc, asset, source, since, Now(s))])
  }

  /** A load that found something. */
  function Record(s: State, done: LoadDone): (s': State)
    requires Formed(s)
    ensures Formed(s')
  {
    s.(loads := s.loads + [done])
  }

  /** The loaded asset is inserted and answered. */
  function StoreNext(s: State, r: nat, key: string, isRsc: bool, since: nat, load: nat): (s': State)
    requires Formed(s) && r < |s.requests| && load < |s.loads|
    ensures Formed(s')
  {
    var asset := s.loads[load].asset;
    Reply(s, r, Some(asset), Load(load), key, isRsc, since).(cache := Insert(s.cache, key, Cached(asset, load)))
  }

  /** The reading, of the metadata or of the payload, that found nothing to load. */
  function EmptyMoment(env: Env, s: State, stat: nat, read: nat, key: string, isRsc: bool): nat
    requires stat < |s.disks|
  {
    if LoadAsset(env, s.disks[stat], key, isRsc) == None then stat else read
  }

  /** The next step of a request that missed. */
  function ProceedNext(env: Env, s: State, r: nat): (r': Option<State>)
    requires Formed(s) && r < |s.requests|
    ensures r'.Some? ==> Formed(r'.value)
  {
    assert RequestFormed(s, s.requests[r]);
    var disk := s.disks[Now(s)];
    match s.requests[r]
    case Idle => None
    case Missed(key, isRsc, since) =>
      if key in disk && disk[key].isFile then Some(At(s, r, Statted(key, isRsc, since, Now(s))))
      else Some(Reply(s, r, None, Nothing(Now(s)), key, isRsc, since))
    case Statted(key, isRsc, since, stat) =>
      if key in disk && disk[key].content != None then Some(At(s, r, Fetched(key, isRsc, since, stat, Now(s))))
      else Some(Reply(s, r, None, Nothing(Now(s)), key, isRsc, since))
    case Fetched(key, isRsc, since, stat, read) =>
      (match Assemble(env, s.disks[stat], s.disks[read], disk, key, isRsc)
       case None => Some(Reply(s, r, None, Nothing(EmptyMoment(env, s, stat, read, key, isRsc)), key, isRsc, since))
       case Some(asset) =>
         var done := LoadDone(key, Moments(stat, read, Now(s)), asset);
         Some(At(Record(s, done), r, Loaded(key, isRsc, since, |s.loads|))))
    case Loaded(key, isRsc, since, load) => Some(StoreNext(s, r, key, isRsc, since, load))
  }

  function Looked(s: State, key: string): (s': State)
    requires Formed(s)
    ensures Formed(s')
  {
    s.(looks := s.looks + [Look(key, Now(s))])
  }

  predicate Usable(s: State, key: string)
    requires s.disks != []
  {
    key in s.cache && FileMatches(s.disks[Now(s)], key, s.cache[key].asset)
  }

  /** A request that looks under `key`: a hit is answered at once. */
  function LookNext(s: State, r: nat, key: string, isRsc: bool): (s': State)
    requires Formed(s) && r < |s.requests| && isRsc == IsRscKey(key)
    ensures Formed(s')
  {
    if Usable(s, key) then
      var hit := s.cache[key];
      Reply(Looked(s, key), r, Some(hit.asset), Hit(hit.load, |s.looks|), key, isRsc, Now(s))
    else At(Looked(s, key), r, Missed(key, isRsc, Now(s)))
  }

  /** A request begins: its key decides what it looks for. */
  function BeginNext(s: State, r: nat, path: string, isRsc: bool): (r': Option<State>)
    requires Formed(s) && r < |s.requests|
    ensures r'.Some? ==> Formed(r'.value)
  {
    match LookupKey(path, isRsc)
    case None => None
    case Some(key) =>
      KeySaysRsc(path, isRsc);
      if s.requests[r].Idle? then Some(LookNext(s, r, key, isRsc)) else None
  }

  /** The state after `step`, or None where the step cannot be taken. */
  function Next(env: Env, s: State, step: Step): (r: Option<State>)
    requires Formed(s)
    ensures r.Some? ==> Formed(r.value)
  {
    match step
    case Change(disk) => Some(s.(disks := s.disks + [disk]))
    case Begin(r, path, isRsc) => if r >= |s.requests| then None else BeginNext(s, r, path, isRsc)
    case Proceed(r) => if r >= |s.requests| then None else ProceedNext(env, s, r)
  }

  function Init(disk: Disk, requests: nat): State { State([disk], map[], seq(requests, _ => Idle), [], [], []) }

  // ---------------------------------------------------------------- what every step keeps

  /** Every cached entry is what the load it names gave. */
  predicate CacheInv(s: State) {
    && |s.cache| <= CACHE_CAPACITY
    && forall key :: key in s.cache ==> CachedFrom(s, key, s.cache[key])
  }

  predicate CachedFrom(s: State, key: string, cached: Cached) {
    cached.load < |s.loads| && s.loads[cached.load].key == key && s.loads[cached.load].asset == cached.asset
  }

  /** A completed load is put together from what it read at its three moments. */
  predicate Assembled(env: Env, disks: seq<Disk>, done: LoadDone) {
    && InOrder(|disks|, done.moments)
    && Assemble(env, disks[done.moments.stat], disks[done.moments.read], disks[done.moments.meta],
                done.key, IsRscKey(done.key)) == Some(done.asset)
  }

  predicate LoadsInv(env: Env, s: State) { forall l :: 0 <= l < |s.loads| ==> Assembled(env, s.disks, s.loads[l]) }

  /**
    An answer is nothing, because at some moment of the request there was nothing to load; or
    what a load gave whose three readings fall within the request; or, for a hit, what an earlier
    load gave, at a moment when it was looked up and the file still matched it.
   */
  predicate Explained(env: Env, s: State, answer: Answer) {
    && answer.since <= answer.until < |s.disks| && answer.isRsc == IsRscKey(answer.key)
    && match answer.source
       case Nothing(at) =>
         && answer.asset == None && answer.since <= at <= answer.until
         && LoadAsset(env, s.disks[at], answer.key, answer.isRsc) == None
       case Load(l) =>
         && answer.asset.Some? && CachedFrom(s, answer.key, Cached(answer.asset.value, l))
         && answer.since <= s.loads[l].moments.stat && s.loads[l].moments.meta <= answer.until
       case Hit(l, b) =>
         && answer.asset.Some? && CachedFrom(s, answer.key, Cached(answer.asset.value, l))
         && answer.since == answer.until && s.loads[l].moments.meta <= answer.until
         && b < |s.looks| && s.looks[b] == Look(answer.key, answer.until)
         && FileMatches(s.disks[answer.until], answer.key, answer.asset.value)
  }

  predicate AnswersInv(env: Env, s: State) { forall k :: 0 <= k < |s.answers| ==> Explained(env, s, s.answers[k]) }

  /** Some request path stands for the key. */
  ghost predicate Askable(key: string) { exists path :: LookupKey(path, IsRscKey(key)) == Some(key) }

  ghost predicate KeysInv(s: State) {
    && (forall r :: 0 <= r < |s.requests| && !s.requests[r].Idle? ==> Askable(s.requests[r].key))
    && (forall l :: 0 <= l < |s.loads| ==> Askable(s.loads[l].key))
  }

  predicate AnswersExplained(env: Env, s: State) { Formed(s) && CacheInv(s) && LoadsInv(env, s) && AnswersInv(env, s) }

  ghost predicate Inv(env: Env, s: State) { AnswersExplained(env, s) && KeysInv(s) }

  /** The history and the logs only grow. */
  predicate Grows(s: State, s': State) {
    && s.disks <= s'.disks && s.loads <= s'.loads && s.looks <= s'.looks
  }

  lemma StepGrows(env: Env, s: State, step: Step, s': State)
    requires Formed(s) && Next(env, s, step) == Some(s')
    ensures Grows(s, s')
  {}

  lemma ExplainedLater(env: Env, s: State, s': State, answer: Answer)
    requires Explained(env, s, answer) && Grows(s, s')
    ensures Explained(env, s', answer)
  {}

  /** A step's one new answer, if it gives one, is all that has to be explained. */
  lemma AnswersLater(env: Env, s: State, s': State)
    requires AnswersInv(env, s) && Grows(s, s')
    requires || s'.answers == s.answers
             || exists answer :: s'.answers == s.answers + [answer] && Explained(env, s', answer)
    ensures AnswersInv(env, s')
  {
    forall k | 0 <= k < |s'.answers| ensures Explained(env, s', s'.answers[k]) {
      if k < |s.answers| {
        ExplainedLater(env, s, s', s.answers[k]);
      }
    }
  }

  lemma LoadsKept(env: Env, s: State, step: Step, s': State)
    requires Formed(s) && LoadsInv(env, s) && Next(env, s, step) == Some(s')
    ensures LoadsInv(env, s')
  {
    StepGrows(env, s, step, s');
    forall l | 0 <= l < |s'.loads| ensures Assembled(env, s'.disks, s'.loads[l]) {
      if l < |s.loads| {
        assert Assembled(env, s.disks, s.loads[l]);
      } else {
        assert RequestFormed(s, s.requests[step.r]);
      }
    }
  }

  lemma CacheKept(env: Env, s: State, step: Step, s': State)
    requires Formed(s) && CacheInv(s) && Next(env, s, step) == Some(s')
    ensures CacheInv(s')
  {
    StepGrows(env, s, step, s');
    if step.Proceed? && s.requests[step.r].Loaded? {
      assert RequestFormed(s, s.requests[step.r]);
      var load := s.requests[step.r].load;
      InsertFits(s.cache, s.requests[step.r].key, Cached(s.loads[load].asset, load));
    }
    forall key | key in s'.cache ensures CachedFrom(s', key, s'.cache[key]) {
      assert key in s.cache ==> CachedFrom(s, key, s.cache[key]);
    }
  }

  lemma HitExplained(env: Env, s: State, key: string, s': State, answer: Answer)
    requires s.disks != [] && CacheInv(s) && LoadsInv(env, s) && Usable(s, key)
    requires s'.disks == s.disks && s'.loads == s.loads && s'.looks == s.looks + [Look(key, Now(s))]
    requires var hit := s.cache[key];
      answer == Answer(key, IsRscKey(key), Some(hit.asset), Hit(hit.load, |s.looks|), Now(s), Now(s))
    ensures Explained(env, s', answer)
  {
    assert CachedFrom(s, key, s.cache[key]) && Assembled(env, s.disks, s.loads[s.cache[key].load]);
  }

  lemma BeginAnswers(env: Env, s: State, step: Step, s': State)
    requires AnswersExplained(env, s) && step.Begin? && Next(env, s, step) == Some(s')
    ensures AnswersInv(env, s')
  {
    var key := LookupKey(step.path, step.isRsc).value;
    KeySaysRsc(step.path, step.isRsc);
    StepGrows(env, s, step, s');
    if Usable(s, key) {
      HitExplained(env, s, key, s', s'.answers[|s.answers|]);
    }
    AnswersLater(env, s, s');
  }

  lemma StoreExplained(env: Env, s: State, r: nat, s': State)
    requires AnswersExplained(env, s) && r < |s.requests| && s.requests[r].Loaded? && ProceedNext(env, s, r) == Some(s')
    ensures s'.answers != s.answers && Explained(env, s', s'.answers[|s.answers|])
  {
    assert RequestFormed(s, s.requests[r]);
    assert Assembled(env, s.disks, s.loads[s.requests[r].load]);
  }

  lemma NothingExplained(env: Env, s: State, r: nat, s': State)
    requires Formed(s) && r < |s.requests| && !s.requests[r].Loaded? && ProceedNext(env, s, r) == Some(s')
    ensures s'.answers != s.answers ==> |s'.answers| == |s.answers| + 1 && Explained(env, s', s'.answers[|s.answers|])
  {
    assert RequestFormed(s, s.requests[r]);
  }

  lemma ProceedAnswers(env: Env, s: State, r: nat, s': State)
    requires AnswersExplained(env, s) && r < |s.requests| && ProceedNext(env, s, r) == Some(s')
    ensures AnswersInv(env, s')
  {
    StepGrows(env, s, Proceed(r), s');
    if s.requests[r].Loaded? {
      StoreExplained(env, s, r, s');
    } else {
      NothingExplained(env, s, r, s');
    }
    AnswersLater(env, s, s');
  }

  lemma KeysKept(env: Env, s: State, step: Step, s': State)
    requires Formed(s) && KeysInv(s) && Next(env, s, step) == Some(s')
    ensures KeysInv(s')
  {
    match step
    case Change(_) =>
    case Begin(r, path, isRsc) => BeginKeepsKeys(s, r, path, isRsc, s');
    case Proceed(r) => ProceedKeepsKeys(env, s, r, s');
  }

  lemma BeginKeepsKeys(s: State, r: nat, path: string, isRsc: bool, s': State)
    requires Formed(s) && KeysInv(s) && r < |s.requests| && BeginNext(s, r, path, isRsc) == Some(s')
    ensures KeysInv(s')
  {
    KeySaysRsc(path, isRsc);
    assert Askable(LookupKey(path, isRsc).value);
  }

  lemma ProceedKeepsKeys(env: Env, s: State, r: nat, s': State)
    requires Formed(s) && KeysInv(s) && r < |s.requests| && ProceedNext(env, s, r) == Some(s')
    ensures KeysInv(s')
  {
    ProceedEffect(env, s, r, s');
    assert Askable(s.requests[r].key);
  }

  lemma ProceedEffect(env: Env, s: State, r: nat, s': State)
    requires Formed(s) && r < |s.requests| && ProceedNext(env, s, r) == Some(s')
    ensures !s.requests[r].Idle? && |s'.requests| == |s.requests|
    ensures forall i :: 0 <= i < |s.requests| && i != r ==> s'.requests[i] == s.requests[i]
    ensures s'.requests[r].Idle? || s'.requests[r].key == s.requests[r].key
    ensures || s'.loads == s.loads
            || exists done :: s'.loads == s.loads + [done] && done.key == s.requests[r].key
  {}

  lemma NextKeepsInv(env: Env, s: State, step: Step, s': State)
    requires Inv(env, s) && Next(env, s, step) == Some(s')
    ensures Inv(env, s')
  {
    KeysKept(env, s, step, s');
    LoadsKept(env, s, step, s');
    CacheKept(env, s, step, s');
    match step
    case Change(_) => AnswersLater(env, s, s');
    case Begin(_, _, _) => BeginAnswers(env, s, step, s');
    case Proceed(r) => ProceedAnswers(env, s, r, s');
  }

  // ---------------------------------------------------------------- whole runs

  ghost predicate Follows(env: Env, s: State, s': State) {
    Formed(s) && exists step :: Next(env, s, step) == Some(s')
  }

  ghost function Relation(env: Env): (State, State) -> bool { (s, s') => Follows(env, s, s') }

  ghost predicate LinkedAt(run: seq<State>, relation: (State, State) -> bool, i: nat)
    requires i + 1 < |run|
  {
    relation(run[i], run[i + 1])
  }

  ghost predicate Linked(run: seq<State>, relation: (State, State) -> bool) {
    forall i: nat :: i + 1 < |run| ==> LinkedAt(run, relation, i)
  }

  lemma LinkedLonger(run: seq<State>, relation: (State, State) -> bool, s: State)
    requires Linked(run, relation) && run != [] && relation(run[|run| - 1], s)
    ensures Linked(run + [s], relation)
  {
    forall i: nat | i + 1 < |run + [s]| ensures LinkedAt(run + [s], relation, i) {
      assert i + 1 < |run| ==> LinkedAt(run, relation, i);
    }
  }

  /** A run: it starts with an empty cache and idle requests, and every state follows the one before it by a step. */
  ghost predicate IsRun(env: Env, run: seq<State>) {
    && run != []
    && (exists disk, requests: nat :: run[0] == Init(disk, requests))
    && Linked(run, Relation(env))
  }

  lemma FirstInv(env: Env, run: seq<State>)
    requires IsRun(env, run)
    ensures Inv(env, run[0])
  {}

  lemma FollowsKeepsInv(env: Env, s: State, s': State)
    requires Inv(env, s) && Follows(env, s, s')
    ensures Inv(env, s')
  {
    var step :| Next(env, s, step) == Some(s');
    NextKeepsInv(env, s, step, s');
  }

  lemma RunKeepsInv(env: Env, run: seq<State>, i: nat)
    requires IsRun(env, run) && i + 1 < |run| && Inv(env, run[i])
    ensures Inv(env, run[i + 1])
  {
    assert LinkedAt(run, Relation(env), i);
    FollowsKeepsInv(env, run[i], run[i + 1]);
  }

  ghost predicate Keeps(run: seq<State>, p: State -> bool, i: nat)
    requires i + 1 < |run|
  {
    p(run[i]) ==> p(run[i + 1])
  }

  lemma {:induction false} RunInduction(run: seq<State>, p: State -> bool, i: nat)
    requires i < |run| && p(run[0]) && forall j: nat :: j + 1 < |run| ==> Keeps(run, p, j)
    ensures p(run[i])
  {
    if i > 0 {
      RunInduction(run, p, i - 1);
      assert Keeps(run, p, i - 1);
    }
  }

  ghost predicate EndsIn(env: Env, run: seq<State>, s: State) { IsRun(env, run) && run[|run| - 1] == s }

  lemma RunInv(env: Env, run: seq<State>, s: State)
    requires EndsIn(env, run, s)
    ensures Inv(env, s)
  {
    var p := (s: State) => Inv(env, s);
    FirstInv(env, run);
    forall j: nat | j + 1 < |run| ensures Keeps(run, p, j) {
      if p(run[j]) {
        RunKeepsInv(env, run, j);
      }
    }
    RunInduction(run, p, |run| - 1);
    assert p(s);
  }

  ghost predicate Reachable(env: Env, s: State) { exists run :: EndsIn(env, run, s) }

  lemma ReachableInv(env: Env, s: State)
    requires Reachable(env, s)
    ensures Inv(env, s)
  {
    var run :| EndsIn(env, run, s);
    RunInv(env, run, s);
  }

  /**
    Whatever the disk does meanwhile: every answer is nothing where a load finds nothing, or was
    put together by one load from what it read at three moments, those of its own request or, for
    a hit, earlier ones.
   */
  lemma AnswersAreExplained(env: Env, s: State, k: nat)
    requires Reachable(env, s) && k < |s.answers|
    ensures Explained(env, s, s.answers[k]) && LoadsInv(env, s)
  {
    ReachableInv(env, s);
  }

  /** Nor does the cache ever outgrow its capacity. */
  lemma CacheIsBounded(env: Env, s: State)
    requires Reachable(env, s)
    ensures |s.cache| <= CACHE_CAPACITY
  {
    ReachableInv(env, s);
  }

  // ---------------------------------------------------------------- which histories are safe when requests interleave

  /** The answer is what a load would have given at a moment while the request was under way. */
  ghost predicate Justified(env: Env, disks: seq<Disk>, answer: Answer) {
    exists j: nat :: answer.since <= j <= answer.until && j < |disks|
      && LoadAsset(env, disks[j], answer.key, answer.isRsc) == answer.asset
  }

  ghost predicate AllJustified(env: Env, s: State) {
    forall q :: 0 <= q < |s.answers| ==> Justified(env, s.disks, s.answers[q])
  }

  /** Whatever is asked, and however requests, loads and changes of the disk interleave over this history. */
  ghost predicate AlwaysJustified(env: Env, disks: seq<Disk>) {
    forall s :: Reachable(env, s) && s.disks == disks ==> AllJustified(env, s)
  }

  /** What a load puts together that reads metadata, payload and sidecar at moments a, b and c. */
  function Mix(env: Env, disks: seq<Disk>, m: Moments, key: string): Option<Asset>
    requires InOrder(|disks|, m)
  {
    Assemble(env, disks[m.stat], disks[m.read], disks[m.meta], key, IsRscKey(key))
  }

  /** The mix is no mix: a load at one moment gives it too. */
  ghost predicate Whole(env: Env, disks: seq<Disk>, m: Moments, key: string)
    requires InOrder(|disks|, m)
  {
    exists j: nat :: m.stat <= j <= m.meta && LoadAsset(env, disks[j], key, IsRscKey(key)) == Mix(env, disks, m, key)
  }

  /** If time and size still match the mix at moment k, a load at k gives it. */
  predicate MixTells(env: Env, disks: seq<Disk>, m: Moments, k: nat, key: string)
    requires InOrder(|disks|, m) && k < |disks|
  {
    var asset := Mix(env, disks, m, key);
    asset.Some? && FileMatches(disks[k], key, asset.value) ==> LoadAsset(env, disks[k], key, IsRscKey(key)) == asset
  }

  /**
    Of no page that can be asked for can a load put together what no moment of it held, or what
    time and size later pass off as current.
   */
  ghost predicate NeverTorn(env: Env, disks: seq<Disk>) {
    forall m, k, key :: InOrder(|disks|, m) && m.meta <= k < |disks| && Askable(key)
      ==> MixTells(env, disks, m, k, key) && (Mix(env, disks, m, key).Some? ==> Whole(env, disks, m, key))
  }

  lemma LoadIsJustified(env: Env, disks: seq<Disk>, done: LoadDone, answer: Answer)
    requires Assembled(env, disks, done) && Askable(done.key) && NeverTorn(env, disks)
    requires answer.key == done.key && answer.isRsc == IsRscKey(done.key) && answer.asset == Some(done.asset)
    requires answer.since <= done.moments.stat && done.moments.meta <= answer.until
    ensures Justified(env, disks, answer)
  {
    var m := done.moments;
    assert MixTells(env, disks, m, m.meta, done.key);
    var j: nat :| m.stat <= j <= m.meta
      && LoadAsset(env, disks[j], done.key, IsRscKey(done.key)) == Mix(env, disks, m, done.key);
  }

  lemma HitIsJustified(env: Env, disks: seq<Disk>, done: LoadDone, answer: Answer)
    requires Assembled(env, disks, done) && Askable(done.key) && NeverTorn(env, disks)
    requires answer.key == done.key && answer.isRsc == IsRscKey(done.key) && answer.asset == Some(done.asset)
    requires done.moments.meta <= answer.since == answer.until < |disks|
    requires FileMatches(disks[answer.until], done.key, done.asset)
    ensures Justified(env, disks, answer)
  {
    assert MixTells(env, disks, done.moments, answer.until, done.key);
  }

  lemma NeverTornIsJustified(env: Env, s: State, q: nat)
    requires Reachable(env, s) && q < |s.answers| && NeverTorn(env, s.disks)
    ensures Justified(env, s.disks, s.answers[q])
  {
    ReachableInv(env, s);
    var answer := s.answers[q];
    assert Explained(env, s, answer);
    match answer.source
    case Nothing(_) =>
    case Load(l) =>
      assert Assembled(env, s.disks, s.loads[l]);
      LoadIsJustified(env, s.disks, s.loads[l], answer);
    case Hit(l, _) =>
      assert Assembled(env, s.disks, s.loads[l]);
      HitIsJustified(env, s.disks, s.loads[l], answer);
  }

  lemma ReachableAtFirst(env: Env, disk: Disk, requests: nat)
    ensures Reachable(env, Init(disk, requests)) && Formed(Init(disk, requests))
  {
    assert EndsIn(env, [Init(disk, requests)], Init(disk, requests));
  }

  lemma ReachableNext(env: Env, s: State, step: Step, s': State)
    requires Reachable(env, s) && Formed(s) && Next(env, s, step) == Some(s')
    ensures Reachable(env, s')
  {
    var run :| EndsIn(env, run, s);
    LinkedLonger(run, Relation(env), s');
    assert EndsIn(env, run + [s'], s');
  }

  /** The disk may move on along the history at any time. */
  lemma {:induction false} DiskMovesOn(env: Env, disks: seq<Disk>, s: State, n: nat)
    requires Reachable(env, s) && Formed(s) && s.disks <= disks && |s.disks| <= n <= |disks|
    ensures Reachable(env, s.(disks := disks[..n])) && Formed(s.(disks := disks[..n]))
    decreases n
  {
    if n == |s.disks| {
      assert s.(disks := disks[..n]) == s;
    } else {
      DiskMovesOn(env, disks, s, n - 1);
      assert disks[..n] == disks[..n - 1] + [disks[n - 1]];
      ReachableNext(env, s.(disks := disks[..n - 1]), Change(disks[n - 1]), s.(disks := disks[..n]));
    }
  }

  /** One request, alone, in the course of a load. */
  function Loading(disks: seq<Disk>, now: nat, request: Request, loads: seq<LoadDone>, look: Look): State
    requires now < |disks|
  {
    State(disks[..now + 1], map[], [request], [], loads, [look])
  }

  /** The one request, idle, is asked for a page under this key. */
  lemma LookAlone(env: Env, s: State, key: string)
    requires Reachable(env, s) && Formed(s) && s.requests == [Idle] && Askable(key)
    ensures Reachable(env, LookNext(s, 0, key, IsRscKey(key)))
  {
    var path :| LookupKey(path, IsRscKey(key)) == Some(key);
    ReachableNext(env, s, Begin(0, path, IsRscKey(key)), LookNext(s, 0, key, IsRscKey(key)));
  }

  lemma MissAlone(env: Env, s: State, key: string, s': State)
    requires Reachable(env, s) && Formed(s) && s.requests == [Idle] && s.cache == map[] && Askable(key)
    requires s' == s.(requests := [Missed(key, IsRscKey(key), Now(s))], looks := s.looks + [Look(key, Now(s))])
    ensures Reachable(env, s') && Formed(s')
  {
    LookAlone(env, s, key);
    assert s.requests[0 := s'.requests[0]] == s'.requests;
  }

  lemma HitAlone(env: Env, s: State, key: string, s': State)
    requires Reachable(env, s) && Formed(s) && s.requests == [Idle] && Askable(key) && Usable(s, key)
    requires var hit, now := Hit(s.cache[key].load, |s.looks|), Now(s);
      s' == s.(answers := s.answers + [Answer(key, IsRscKey(key), Some(s.cache[key].asset), hit, now, now)],
               looks := s.looks + [Look(key, now)])
    ensures Reachable(env, s') && Formed(s')
  {
    LookAlone(env, s, key);
    assert s.requests[0 := s'.requests[0]] == s'.requests;
  }

  lemma ProceedAlone(env: Env, s: State, s': State)
    requires Reachable(env, s) && Formed(s) && |s.requests| == 1 && ProceedNext(env, s, 0) == Some(s')
    ensures Reachable(env, s') && Formed(s')
  {
    ReachableNext(env, s, Proceed(0), s');
  }

  lemma StatAlone(env: Env, s: State, key: string, since: nat, s': State)
    requires Reachable(env, s) && Formed(s) && s.requests == [Missed(key, IsRscKey(key), since)]
    requires key in s.disks[Now(s)] && s.disks[Now(s)][key].isFile
    requires s' == s.(requests := [Statted(key, IsRscKey(key), since, Now(s))])
    ensures Reachable(env, s') && Formed(s')
  {
    assert s.requests[0 := s'.requests[0]] == s'.requests;
    ProceedAlone(env, s, s');
  }

  lemma ReadAlone(env: Env, s: State, key: string, since: nat, stat: nat, s': State)
    requires Reachable(env, s) && Formed(s) && s.requests == [Statted(key, IsRscKey(key), since, stat)]
    requires key in s.disks[Now(s)] && s.disks[Now(s)][key].content.Some?
    requires s' == s.(requests := [Fetched(key, IsRscKey(key), since, stat, Now(s))])
    ensures Reachable(env, s') && Formed(s')
  {
    assert s.requests[0 := s'.requests[0]] == s'.requests;
    ProceedAlone(env, s, s');
  }

  lemma MetaAlone(env: Env, s: State, key: string, since: nat, stat: nat, read: nat, s': State)
    requires Reachable(env, s) && Formed(s) && s.requests == [Fetched(key, IsRscKey(key), since, stat, read)]
    requires RequestFormed(s, s.requests[0])
    requires var asset := Assemble(env, s.disks[stat], s.disks[read], s.disks[Now(s)], key, IsRscKey(key));
      && asset.Some?
      && s' == s.(requests := [Loaded(key, IsRscKey(key), since, |s.loads|)],
                  loads := s.loads + [LoadDone(key, Moments(stat, read, Now(s)), asset.value)])
    ensures Reachable(env, s') && Formed(s')
  {
    assert s.requests[0 := s'.requests[0]] == s'.requests;
    ProceedAlone(env, s, s');
  }

  lemma StoreAlone(env: Env, s: State, key: string, since: nat, asset: Asset, s': State)
    requires Reachable(env, s) && Formed(s) && s.requests == [Loaded(key, IsRscKey(key), since, 0)] && s.cache == map[]
    requires |s.loads| == 1 && s.loads[0].asset == asset
    requires s' == s.(requests := [Idle], cache := map[key := Cached(asset, 0)],
                      answers := s.answers + [Answer(key, IsRscKey(key), Some(asset), Load(0), since, Now(s))])
    ensures Reachable(env, s') && Formed(s')
  {
    assert RequestFormed(s, s.requests[0]);
    assert s.requests[0 := s'.requests[0]] == s'.requests;
    ProceedAlone(env, s, s');
  }

  lemma MissAt(env: Env, disks: seq<Disk>, a: nat, key: string) returns (s: State)
    requires a < |disks| && Askable(key)
    ensures s == Loading(disks, a, Missed(key, IsRscKey(key), a), [], Look(key, a)) && Reachable(env, s) && Formed(s)
  {
    var s0 := Init(disks[0], 1);
    ReachableAtFirst(env, disks[0], 1);
    DiskMovesOn(env, disks, s0, a + 1);
    s := Loading(disks, a, Missed(key, IsRscKey(key), a), [], Look(key, a));
    MissAlone(env, s0.(disks := disks[..a + 1]), key, s);
  }

  lemma StatAt(env: Env, disks: seq<Disk>, a: nat, key: string) returns (s: State)
    requires a < |disks| && Askable(key) && key in disks[a] && disks[a][key].isFile
    ensures s == Loading(disks, a, Statted(key, IsRscKey(key), a, a), [], Look(key, a))
    ensures Reachable(env, s) && Formed(s)
  {
    var s0 := MissAt(env, disks, a, key);
    s := Loading(disks, a, Statted(key, IsRscKey(key), a, a), [], Look(key, a));
    StatAlone(env, s0, key, a, s);
  }

  lemma ReadAt(env: Env, disks: seq<Disk>, a: nat, b: nat, key: string) returns (s: State)
    requires a <= b < |disks| && Askable(key) && key in disks[a] && disks[a][key].isFile
    requires key in disks[b] && disks[b][key].content.Some?
    ensures s == Loading(disks, b, Fetched(key, IsRscKey(key), a, a, b), [], Look(key, a))
    ensures Reachable(env, s) && Formed(s)
  {
    var s0 := StatAt(env, disks, a, key);
    DiskMovesOn(env, disks, s0, b + 1);
    s := Loading(disks, b, Fetched(key, IsRscKey(key), a, a, b), [], Look(key, a));
    ReadAlone(env, Loading(disks, b, Statted(key, IsRscKey(key), a, a), [], Look(key, a)), key, a, a, s);
  }

  lemma MetaAt(env: Env, disks: seq<Disk>, m: Moments, key: string, asset: Asset) returns (s: State)
    requires InOrder(|disks|, m) && Askable(key) && Mix(env, disks, m, key) == Some(asset)
    ensures var loaded := Loaded(key, IsRscKey(key), m.stat, 0);
      s == Loading(disks, m.meta, loaded, [LoadDone(key, m, asset)], Look(key, m.stat))
    ensures Reachable(env, s) && Formed(s)
  {
    var s0 := ReadAt(env, disks, m.stat, m.read, key);
    DiskMovesOn(env, disks, s0, m.meta + 1);
    var s1 := Loading(disks, m.meta, Fetched(key, IsRscKey(key), m.stat, m.stat, m.read), [], Look(key, m.stat));
    s := Loading(disks, m.meta, Loaded(key, IsRscKey(key), m.stat, 0), [LoadDone(key, m, asset)], Look(key, m.stat));
    MetaAlone(env, s1, key, m.stat, m.stat, m.read, s);
  }

  /** The one request has been answered by its load, and the disk has moved on to moment `now`. */
  function Stored(disks: seq<Disk>, now: nat, key: string, m: Moments, asset: Asset): State
    requires now < |disks|
  {
    State(disks[..now + 1], map[key := Cached(asset, 0)], [Idle],
          [Answer(key, IsRscKey(key), Some(asset), Load(0), m.stat, m.meta)], [LoadDone(key, m, asset)],
          [Look(key, m.stat)])
  }

  /** Any three moments in order can be those of a load: its answer is the mix of what they hold. */
  lemma MixIsAnswered(env: Env, disks: seq<Disk>, m: Moments, key: string, asset: Asset, now: nat)
    requires InOrder(|disks|, m) && m.meta <= now < |disks| && Askable(key) && Mix(env, disks, m, key) == Some(asset)
    ensures Reachable(env, Stored(disks, now, key, m, asset)) && Formed(Stored(disks, now, key, m, asset))
  {
    var s := MetaAt(env, disks, m, key, asset);
    StoreAlone(env, s, key, m.stat, asset, Stored(disks, m.meta, key, m, asset));
    DiskMovesOn(env, disks, Stored(disks, m.meta, key, m, asset), now + 1);
  }

  function HitAgain(s: State, key: string, asset: Asset, k: nat): State {
    s.(answers := s.answers + [Answer(key, IsRscKey(key), Some(asset), Hit(0, 1), k, k)],
       looks := s.looks + [Look(key, k)])
  }

  lemma HitAt(env: Env, disks: seq<Disk>, m: Moments, key: string, asset: Asset, k: nat)
    requires InOrder(|disks|, m) && m.meta <= k < |disks| && Askable(key) && Mix(env, disks, m, key) == Some(asset)
    requires FileMatches(disks[k], key, asset)
    ensures var s := HitAgain(Stored(disks, k, key, m, asset), key, asset, k); Reachable(env, s) && Formed(s)
  {
    MixIsAnswered(env, disks, m, key, asset, k);
    StoredIsUsable(disks, m, key, asset, k);
    HitAlone(env, Stored(disks, k, key, m, asset), key, HitAgain(Stored(disks, k, key, m, asset), key, asset, k));
  }

  lemma StoredIsUsable(disks: seq<Disk>, m: Moments, key: string, asset: Asset, k: nat)
    requires k < |disks| && FileMatches(disks[k], key, asset)
    ensures Usable(Stored(disks, k, key, m, asset), key) && Now(Stored(disks, k, key, m, asset)) == k
  {
    assert disks[..k + 1][k] == disks[k];
  }

  /** And it is answered again at any later moment at which its time and size match. */
  lemma MixIsHit(env: Env, disks: seq<Disk>, m: Moments, key: string, asset: Asset, k: nat) returns (s: State)
    requires InOrder(|disks|, m) && m.meta <= k < |disks| && Askable(key) && Mix(env, disks, m, key) == Some(asset)
    requires FileMatches(disks[k], key, asset)
    ensures Reachable(env, s) && s.disks == disks && |s.answers| == 2
    ensures s.answers[1] == Answer(key, IsRscKey(key), Some(asset), Hit(0, 1), k, k)
  {
    HitAt(env, disks, m, key, asset, k);
    var s1 := HitAgain(Stored(disks, k, key, m, asset), key, asset, k);
    DiskMovesOn(env, disks, s1, |disks|);
    s := s1.(disks := disks[..|disks|]);
  }

  lemma StoredIsSafe(env: Env, disks: seq<Disk>, s: State, key: string, m: Moments)
    requires Reachable(env, s) && s.disks == disks && AlwaysJustified(env, disks) && InOrder(|disks|, m)
    requires s.answers == [Answer(key, IsRscKey(key), Mix(env, disks, m, key), Load(0), m.stat, m.meta)]
    ensures Whole(env, disks, m, key)
  {
    assert AllJustified(env, s);
    assert Justified(env, s.disks, s.answers[0]);
  }

  lemma SafeIsWhole(env: Env, disks: seq<Disk>, m: Moments, key: string, asset: Asset)
    requires InOrder(|disks|, m) && Askable(key) && AlwaysJustified(env, disks)
    requires Mix(env, disks, m, key) == Some(asset)
    ensures Whole(env, disks, m, key)
  {
    MixIsAnswered(env, disks, m, key, asset, |disks| - 1);
    assert disks[..|disks|] == disks;
    StoredIsSafe(env, disks, Stored(disks, |disks| - 1, key, m, asset), key, m);
  }

  lemma HitIsSafe(env: Env, disks: seq<Disk>, s: State, q: nat, key: string, asset: Asset, source: Source, k: nat)
    requires Reachable(env, s) && s.disks == disks && AlwaysJustified(env, disks) && k < |disks|
    requires q < |s.answers| && s.answers[q] == Answer(key, IsRscKey(key), Some(asset), source, k, k)
    ensures LoadAsset(env, disks[k], key, IsRscKey(key)) == Some(asset)
  {
    assert AllJustified(env, s);
    assert Justified(env, s.disks, s.answers[q]);
  }

  lemma SafeHit(env: Env, disks: seq<Disk>, m: Moments, k: nat, key: string, asset: Asset)
    requires InOrder(|disks|, m) && m.meta <= k < |disks| && Askable(key) && AlwaysJustified(env, disks)
    requires Mix(env, disks, m, key) == Some(asset) && FileMatches(disks[k], key, asset)
    ensures LoadAsset(env, disks[k], key, IsRscKey(key)) == Some(asset)
  {
    var s := MixIsHit(env, disks, m, key, asset, k);
    HitIsSafe(env, disks, s, 1, key, asset, Hit(0, 1), k);
  }

  lemma SafeTells(env: Env, disks: seq<Disk>, m: Moments, k: nat, key: string)
    requires InOrder(|disks|, m) && m.meta <= k < |disks| && Askable(key) && AlwaysJustified(env, disks)
    ensures MixTells(env, disks, m, k, key)
  {
    var asset := Mix(env, disks, m, key);
    if asset.Some? && FileMatches(disks[k], key, asset.value) {
      SafeHit(env, disks, m, k, key, asset.value);
    }
  }

  /**
    For a history of the disk: every answer of every interleaving is what a load would have given
    at some moment while its request was under way, if and only if the history is never torn.
   */
  lemma AnswersAreLoadsIff(env: Env, disks: seq<Disk>)
    ensures AlwaysJustified(env, disks) <==> NeverTorn(env, disks)
  {
    if NeverTorn(env, disks) {
      forall s | Reachable(env, s) && s.disks == disks ensures AllJustified(env, s) {
        forall q | 0 <= q < |s.answers| ensures Justified(env, s.disks, s.answers[q]) {
          NeverTornIsJustified(env, s, q);
        }
      }
    }
    if AlwaysJustified(env, disks) {
      forall m, k, key | InOrder(|disks|, m) && m.meta <= k < |disks| && Askable(key)
        ensures MixTells(env, disks, m, k, key) && (Mix(env, disks, m, key).Some? ==> Whole(env, disks, m, key))
      {
        SafeTells(env, disks, m, k, key);
        if Mix(env, disks, m, key).Some? {
          SafeIsWhole(env, disks, m, key, Mix(env, disks, m, key).value);
        }
      }
    }
  }

  /**
    Such a history never rewrites a page: at all moments at which a page loads, its payload and
    its headers are the same. So a page regenerated in place, whatever its time and size become,
    can be answered as it never was, or served stale.
   */
  lemma SafeMeansUnchanged(env: Env, disks: seq<Disk>, i: nat, j: nat, key: string)
    requires AlwaysJustified(env, disks) && i <= j < |disks| && Askable(key)
    requires LoadAsset(env, disks[i], key, IsRscKey(key)).Some? && LoadAsset(env, disks[j], key, IsRscKey(key)).Some?
    ensures var before := LoadAsset(env, disks[i], key, IsRscKey(key)).value;
      var after := LoadAsset(env, disks[j], key, IsRscKey(key)).value;
      after == before.(mtime := after.mtime, size := after.size)
  {
    var m := Moments(i, j, j);
    SafeIsWhole(env, disks, m, key, Mix(env, disks, m, key).value);
    var n: nat :| i <= n <= j && LoadAsset(env, disks[n], key, IsRscKey(key)) == Mix(env, disks, m, key);
    SafeTells(env, disks, Moments(i, i, i), n, key);
  }

  lemma TornIsNoLoad(env: Env, page1: Node, page2: Node, key: string)
    requires page1.isFile && page2.content.Some? && page1.mtime.Some?
    requires page1.content != page2.content && (page1.mtime != page2.mtime || page1.size != page2.size)
    ensures var disks: seq<Disk> := [map[key := page1], map[key := page2]];
      var torn := Mix(env, disks, Moments(0, 1, 1), key);
      torn.Some? && forall j :: 0 <= j < 2 ==> LoadAsset(env, disks[j], key, IsRscKey(key)) != torn
  {}

  /** A run that answers what no disk ever held: metadata of the old page with the payload of the new one. */
  lemma TornLoad(env: Env, page1: Node, page2: Node, key: string) returns (s: State)
    requires page1.isFile && page2.content.Some? && page1.mtime.Some?
    requires page1.content != page2.content && (page1.mtime != page2.mtime || page1.size != page2.size)
    requires Askable(key)
    ensures Reachable(env, s) && s.disks == [map[key := page1], map[key := page2]] && |s.answers| == 1
    ensures s.answers[0].asset.Some? && !Justified(env, s.disks, s.answers[0])
  {
    var disks := [map[key := page1], map[key := page2]];
    TornIsNoLoad(env, page1, page2, key);
    var torn := Mix(env, disks, Moments(0, 1, 1), key).value;
    MixIsAnswered(env, disks, Moments(0, 1, 1), key, torn, 1);
    s := Stored(disks, 1, key, Moments(0, 1, 1), torn);
    assert s.disks == disks;
  }

  // ---------------------------------------------------------------- the service

  datatype Verb = Get | Head | Other

  class PrerenderInner {
    const env: Env
    var cache: Cache

    constructor (env: Env)
      ensures this.env == env && cache == map[]
    {
      this.env := env;
      cache := map[];
    }

    /**
      `try_serve` up to the response: the asset for a request, or None to fall through. `rsc` is
      the value of the header of that name.
     */
    method TryServe(disk: Disk, verb: Verb, path: string, rsc: Option<string>) returns (asset: Option<Asset>)
      modifies this
      ensures verb == Other || LookupKey(path, rsc == Some("1")) == None ==> asset == None && cache == old(cache)
      ensures verb != Other && LookupKey(path, rsc == Some("1")).Some? ==>
                (cache, asset)
                == Resolve(env, disk, old(cache), LookupKey(path, rsc == Some("1")).value, rsc == Some("1"))
      ensures |old(cache)| <= CACHE_CAPACITY ==> |cache| <= CACHE_CAPACITY
    {
      if verb == Other {
        return None;
      }
      var isRsc := rsc.Some? && rsc.value == "1";
      var key := LookupKey(path, isRsc);
      if key == None {
        return None;
      }
      asset := ResolveAsset(disk, key.value, isRsc);
    }

    method ResolveAsset(disk: Disk, key: string, isRsc: bool) returns (asset: Option<Asset>)
      modifies this
      ensures (cache, asset) == Resolve(env, disk, old(cache), key, isRsc)
      ensures |old(cache)| <= CACHE_CAPACITY ==> |cache| <= CACHE_CAPACITY
    {
      if key in cache && FileMatches(disk, key, cache[key]) {
        return Some(cache[key]);
      }
      asset := LoadAsset(env, disk, key, isRsc);
      if asset == None {
        return;
      }
      if |cache| >= CACHE_CAPACITY {
        cache := map[];
      }
      cache := cache[key := asset.value];
    }
  }
}

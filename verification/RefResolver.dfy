/** The resolver of scoped references: a cache keyed by the file's modification
    time, against reading the file afresh on every call. */
module RefResolver {
  import opened Text

  /** The values file at one moment. */
  datatype File = Missing | Present(modTime: int, content: string)

  /** What decoding gives: the JSON value null decodes to no map at all. */
  datatype Decoded = Malformed | Null | Values(values: map<string, string>)

  datatype Config = Config(path: string, inlineJSON: string, decode: string -> Decoded)

  datatype Problem = RefRequired | Unreadable | Undecodable | NotPresent

  datatype Loaded = NotLoaded(problem: Problem) | Loaded(values: map<string, string>)

  datatype Answer = Failed(problem: Problem) | Found(value: string)

  datatype Cache = Cache(
    inlineCache: Option<map<string, string>>, fileCache: Option<map<string, string>>, fileModTime: int)

  const EMPTY := Cache(None, None, 0)

  // ---------- the reference itself ----------

  /** Placeholders are replaced from the left in one scan of the text. */
  function Expand(s: string, tenant: string, project: string): string
    decreases |s|
  {
    if HasPrefix(s, "{tenantId}") then tenant + Expand(s[10..], tenant, project)
    else if HasPrefix(s, "{projectId}") then project + Expand(s[11..], tenant, project)
    else if s == [] then []
    else [s[0]] + Expand(s[1..], tenant, project)
  }

  function ExpandScopedRef(ref: string, tenant: string, project: string): string {
    Expand(Trim(ref), Trim(tenant), Trim(project))
  }

  /** A reference template, and its text. */
  datatype Part = Plain(text: string) | Tenant | Project

  function Spelled(parts: seq<Part>): string {
    if parts == [] then []
    else
      (match parts[0] case Plain(t) => t case Tenant => "{tenantId}" case Project => "{projectId}") +
      Spelled(parts[1..])
  }

  function Filled(parts: seq<Part>, tenant: string, project: string): string {
    if parts == [] then []
    else
      (match parts[0] case Plain(t) => t case Tenant => tenant case Project => project) +
      Filled(parts[1..], tenant, project)
  }

  predicate StartsPlaceholder(s: string) { HasPrefix(s, "{tenantId}") || HasPrefix(s, "{projectId}") }

  /** No placeholder starts inside this text, whatever braces it has. */
  predicate PlainBefore(text: string, rest: string) {
    forall k :: 0 <= k < |text| ==> !StartsPlaceholder(text[k..] + rest)
  }

  /** The template's text has no placeholders but the ones it spells. */
  predicate Unambiguous(parts: seq<Part>) {
    parts == [] ||
    ((parts[0].Plain? ==> PlainBefore(parts[0].text, Spelled(parts[1..]))) && Unambiguous(parts[1..]))
  }

  lemma {:induction false} ExpandPlain(text: string, rest: string, tenant: string, project: string)
    requires PlainBefore(text, rest)
    ensures Expand(text + rest, tenant, project) == text + Expand(rest, tenant, project)
  {
    if text == [] {
      assert text + rest == rest;
    } else {
      assert text[0..] == text && !StartsPlaceholder(text[0..] + rest);
      assert (text + rest)[1..] == text[1..] + rest;
      forall k | 0 <= k < |text[1..]| ensures !StartsPlaceholder(text[1..][k..] + rest) {
        assert text[1..][k..] == text[k + 1..];
      }
      ExpandPlain(text[1..], rest, tenant, project);
      assert [text[0]] + (text[1..] + Expand(rest, tenant, project)) == text + Expand(rest, tenant, project);
    }
  }

  lemma ExpandPlaceholder(rest: string, tenant: string, project: string)
    ensures Expand("{tenantId}" + rest, tenant, project) == tenant + Expand(rest, tenant, project)
    ensures Expand("{projectId}" + rest, tenant, project) == project + Expand(rest, tenant, project)
  {
    assert ("{tenantId}" + rest)[10..] == rest;
    assert ("{projectId}" + rest)[11..] == rest;
    assert ("{projectId}" + rest)[1] == 'p' && "{tenantId}"[1] == 't';
  }

  /** Every placeholder is filled, once: braces inside a tenant or project are
      never read as placeholders themselves. */
  lemma {:induction false} ExpandFills(parts: seq<Part>, tenant: string, project: string)
    requires Unambiguous(parts)
    ensures Expand(Spelled(parts), tenant, project) == Filled(parts, tenant, project)
  {
    if parts != [] {
      ExpandFills(parts[1..], tenant, project);
      ExpandPlaceholder(Spelled(parts[1..]), tenant, project);
      if parts[0].Plain? { ExpandPlain(parts[0].text, Spelled(parts[1..]), tenant, project); }
    }
  }

  // ---------- one call ----------

  /** The values without any cache. */
  function Direct(c: Config, file: File): Loaded {
    if c.inlineJSON != "" then Meaning(c.decode(c.inlineJSON))
    else if c.path == "" then Loaded(map[])
    else if file.Missing? then NotLoaded(Unreadable)
    else Meaning(c.decode(file.content))
  }

  function Meaning(d: Decoded): Loaded {
    match d
    case Malformed => NotLoaded(Undecodable)
    case Null => Loaded(map[])
    case Values(values) => Loaded(values)
  }

  function Kept(d: Decoded): Option<map<string, string>> { if d.Values? then Some(d.values) else None }

  /** A load that looks at the file twice: once for its modification time, and
      again, possibly later, for its content. */
  function Load(c: Config, cache: Cache, atStat: File, atRead: File): (Loaded, Cache) {
    if c.inlineJSON != "" then
      if cache.inlineCache.Some? then (Loaded(cache.inlineCache.value), cache)
      else
        var d := c.decode(c.inlineJSON);
        (Meaning(d), if d.Malformed? then cache else cache.(inlineCache := Kept(d)))
    else if c.path == "" then (Loaded(map[]), cache)
    else if atStat.Missing? then (NotLoaded(Unreadable), cache)
    else if cache.fileCache.Some? && atStat.modTime == cache.fileModTime then (Loaded(cache.fileCache.value), cache)
    else if atRead.Missing? then (NotLoaded(Unreadable), cache)
    else
      var d := c.decode(atRead.content);
      (Meaning(d), if d.Malformed? then cache else cache.(fileCache := Kept(d), fileModTime := atStat.modTime))
  }

  function Lookup(loaded: Loaded, tenant: string, project: string, ref: string): Answer {
    var expanded := ExpandScopedRef(ref, tenant, project);
    match loaded
    case NotLoaded(problem) => Failed(problem)
    case Loaded(values) =>
      if expanded in values then Found(values[expanded])
      else if ref in values then Found(values[ref])
      else Failed(NotPresent)
  }

  /** What a call with no cache returns. */
  function Uncached(c: Config, file: File, tenant: string, project: string, ref: string): Answer {
    if Trim(ref) == "" then Failed(RefRequired) else Lookup(Direct(c, file), tenant, project, Trim(ref))
  }

  function Cached(c: Config, cache: Cache, atStat: File, atRead: File, tenant: string, project: string, ref: string)
    : (Answer, Cache)
  {
    if Trim(ref) == "" then (Failed(RefRequired), cache)
    else
      var (loaded, after) := Load(c, cache, atStat, atRead);
      (Lookup(loaded, tenant, project, Trim(ref)), after)
  }

  class Resolver {
    const config: Config
    var inlineCache: Option<map<string, string>>
    var fileCache: Option<map<string, string>>
    var fileModTime: int

    function Contents(): Cache
      reads this
    {
      Cache(inlineCache, fileCache, fileModTime)
    }

    constructor (config: Config)
      ensures this.config == config && Contents() == EMPTY
    {
      this.config := config;
      inlineCache, fileCache, fileModTime := None, None, 0;
    }

    method LoadLocked(atStat: File, atRead: File) returns (loaded: Loaded)
      modifies this
      ensures (loaded, Contents()) == Load(config, old(Contents()), atStat, atRead)
    {
      if config.inlineJSON != "" {
        if inlineCache.Some? { return Loaded(inlineCache.value); }
        match config.decode(config.inlineJSON) {
          case Malformed => return NotLoaded(Undecodable);
          case Null =>
            inlineCache := None;
            return Loaded(map[]);
          case Values(values) =>
            inlineCache := Some(values);
            return Loaded(values);
        }
      }
      if config.path == "" { return Loaded(map[]); }
      if atStat.Missing? { return NotLoaded(Unreadable); }
      if fileCache.Some? && atStat.modTime == fileModTime { return Loaded(fileCache.value); }
      if atRead.Missing? { return NotLoaded(Unreadable); }
      match config.decode(atRead.content) {
        case Malformed => return NotLoaded(Undecodable);
        case Null =>
          fileCache, fileModTime := None, atStat.modTime;
          return Loaded(map[]);
        case Values(values) =>
          fileCache, fileModTime := Some(values), atStat.modTime;
          return Loaded(values);
      }
    }

    method Resolve(atStat: File, atRead: File, tenant: string, project: string, ref: string) returns (answer: Answer)
      modifies this
      ensures (answer, Contents()) == Cached(config, old(Contents()), atStat, atRead, tenant, project, ref)
    {
      var trimmed := Trim(ref);
      if trimmed == "" { return Failed(RefRequired); }
      var expanded := ExpandScopedRef(trimmed, tenant, project);
      var loaded := LoadLocked(atStat, atRead);
      if loaded.NotLoaded? { return Failed(loaded.problem); }
      if expanded in loaded.values { return Found(loaded.values[expanded]); }
      if trimmed in loaded.values { return Found(loaded.values[trimmed]); }
      return Failed(NotPresent);
    }
  }

  // ---------- any interleaving of calls and rewrites ----------

  /** One call: the moments at which it looks at the file, and what it asks. */
  datatype Call = Call(statAt: nat, readAt: nat, tenant: string, project: string, ref: string)

  /** Calls hold a lock, so each ends before the next begins; the file may change
      at any moment, also inside a call. */
  predicate InOrder(calls: seq<Call>, versions: seq<File>) {
    && (forall i :: 0 <= i < |calls| ==> calls[i].statAt <= calls[i].readAt < |versions|)
    && (forall i, j :: 0 <= i < j < |calls| ==> calls[i].readAt <= calls[j].statAt)
  }

  function CacheAfter(c: Config, versions: seq<File>, calls: seq<Call>): Cache
    requires InOrder(calls, versions)
  {
    if calls == [] then EMPTY
    else
      var call := calls[|calls| - 1];
      Cached(c, CacheAfter(c, versions, calls[..|calls| - 1]), versions[call.statAt], versions[call.readAt],
             call.tenant, call.project, call.ref).1
  }

  function LastAnswer(c: Config, versions: seq<File>, calls: seq<Call>): Answer
    requires InOrder(calls, versions) && calls != []
  {
    var call := calls[|calls| - 1];
    Cached(c, CacheAfter(c, versions, calls[..|calls| - 1]), versions[call.statAt], versions[call.readAt],
           call.tenant, call.project, call.ref).0
  }

  function UncachedAt(c: Config, versions: seq<File>, call: Call, moment: nat): Answer
    requires moment < |versions|
  {
    Uncached(c, versions[moment], call.tenant, call.project, call.ref)
  }

  predicate InlineSound(c: Config, cache: Cache) {
    cache.inlineCache.Some? ==> c.inlineJSON != "" && c.decode(c.inlineJSON) == Values(cache.inlineCache.value)
  }

  /** The cached values were read by this call, under the time it saw first. */
  predicate FileCacheFrom(c: Config, versions: seq<File>, cache: Cache, call: Call)
    requires call.statAt < |versions| && call.readAt < |versions|
  {
    && cache.fileCache.Some?
    && versions[call.statAt].Present? && versions[call.statAt].modTime == cache.fileModTime
    && versions[call.readAt].Present? && c.decode(versions[call.readAt].content) == Values(cache.fileCache.value)
  }

  /** What one call does to the cache. */
  lemma CallFillsCache(c: Config, was: Cache, atStat: File, atRead: File, call: Call)
    requires InlineSound(c, was)
    ensures var now := Cached(c, was, atStat, atRead, call.tenant, call.project, call.ref).1;
      && InlineSound(c, now)
      && (now.fileCache != was.fileCache || now.fileModTime != was.fileModTime ==>
          now.fileCache.None? ||
          (atStat.Present? && atStat.modTime == now.fileModTime &&
           atRead.Present? && c.decode(atRead.content) == Values(now.fileCache.value)))
  {
  }

  lemma {:induction false} CacheComesFromACall(c: Config, versions: seq<File>, calls: seq<Call>) returns (i: nat)
    requires InOrder(calls, versions)
    ensures
      var cache := CacheAfter(c, versions, calls);
      InlineSound(c, cache) &&
      (cache.fileCache.Some? ==> i < |calls| && FileCacheFrom(c, versions, cache, calls[i]))
  {
    i := 0;
    if calls != [] {
      var before, call := calls[..|calls| - 1], calls[|calls| - 1];
      i := CacheComesFromACall(c, versions, before);
      var was, now := CacheAfter(c, versions, before), CacheAfter(c, versions, calls);
      CallFillsCache(c, was, versions[call.statAt], versions[call.readAt], call);
      if now.fileCache != was.fileCache || now.fileModTime != was.fileModTime { i := |calls| - 1; }
    }
  }

  /** While a file comes back to a modification time, everything it held in
      between is what it holds then. */
  predicate Steady(versions: seq<File>, i: nat, j: nat, k: nat)
    requires i <= j <= k < |versions|
  {
    versions[i].Present? && versions[j].Present? && versions[k].Present? && versions[i].modTime == versions[k].modTime
    ==> versions[j].content == versions[k].content
  }

  lemma AnswerFromCache(c: Config, versions: seq<File>, calls: seq<Call>, i: nat)
    requires InOrder(calls, versions) && calls != []
    requires
      var cache := CacheAfter(c, versions, calls[..|calls| - 1]);
      && InlineSound(c, cache)
      && (cache.fileCache.Some? ==>
          i < |calls| - 1 && FileCacheFrom(c, versions, cache, calls[i]) &&
          Steady(versions, calls[i].statAt, calls[i].readAt, calls[|calls| - 1].statAt))
    ensures
      var call := calls[|calls| - 1];
      LastAnswer(c, versions, calls) in
        [UncachedAt(c, versions, call, call.statAt), UncachedAt(c, versions, call, call.readAt)]
  {
    var call := calls[|calls| - 1];
    var cache := CacheAfter(c, versions, calls[..|calls| - 1]);
    var loaded := Load(c, cache, versions[call.statAt], versions[call.readAt]).0;
    assert loaded == Direct(c, versions[call.statAt]) || loaded == Direct(c, versions[call.readAt]);
  }

  predicate SteadyThroughout(versions: seq<File>) {
    forall i: nat, j: nat, k: nat :: i <= j <= k < |versions| ==> Steady(versions, i, j, k)
  }

  /** Every call answers as a fresh read at one of its two looks would, through
      failed decodes, missing files and rewrites between the looks. */
  lemma ResolveIsFresh(c: Config, versions: seq<File>, calls: seq<Call>)
    requires InOrder(calls, versions) && calls != []
    requires SteadyThroughout(versions)
    ensures
      var call := calls[|calls| - 1];
      LastAnswer(c, versions, calls) in
        [UncachedAt(c, versions, call, call.statAt), UncachedAt(c, versions, call, call.readAt)]
  {
    var i := CacheComesFromACall(c, versions, calls[..|calls| - 1]);
    AnswerFromCache(c, versions, calls, i);
  }

  /** When no rewrite falls between a call's two looks, it is enough that no
      modification time is ever used again for other content. */
  predicate TimeTellsContent(versions: seq<File>) {
    forall i: nat, k: nat :: i <= k < |versions| ==> Steady(versions, i, i, k)
  }

  lemma AtomicResolveIsFresh(c: Config, versions: seq<File>, calls: seq<Call>)
    requires InOrder(calls, versions) && calls != []
    requires forall i :: 0 <= i < |calls| ==> versions[calls[i].statAt] == versions[calls[i].readAt]
    requires TimeTellsContent(versions)
    ensures
      var call := calls[|calls| - 1];
      LastAnswer(c, versions, calls) == UncachedAt(c, versions, call, call.statAt)
  {
    var i := CacheComesFromACall(c, versions, calls[..|calls| - 1]);
    if i < |calls| - 1 {
      assert Steady(versions, calls[i].statAt, calls[i].statAt, calls[|calls| - 1].statAt);
    }
    AnswerFromCache(c, versions, calls, i);
  }

  /** Otherwise not: wherever a file comes back to a time after holding something
      else, two calls make the resolver answer with what the file no longer holds. */
  lemma UnsteadyFileMisleads(versions: seq<File>, i: nat, j: nat, k: nat)
    requires i <= j <= k < |versions| && !Steady(versions, i, j, k)
    ensures
      var c := Config("refs.json", "", content => Values(map["r" := content]));
      var calls := [Call(i, j, "", "", "r"), Call(k, k, "", "", "r")];
      && InOrder(calls, versions)
      && LastAnswer(c, versions, calls) == Found(versions[j].content)
      && UncachedAt(c, versions, calls[1], k) == Found(versions[k].content)
      && versions[j].content != versions[k].content
  {
    var c := Config("refs.json", "", content => Values(map["r" := content]));
    var first, second := Call(i, j, "", "", "r"), Call(k, k, "", "", "r");
    var calls := [first, second];
    assert calls[..1] == [first] && [first][..0] == [];
    assert ExpandScopedRef("r", "", "") == "r" by {
      assert "r"[1..] == [] && Trim("r") == "r" && Trim("") == "";
      assert "{tenantId}"[0] != "r"[0] && "{projectId}"[0] != "r"[0];
    }
    assert CacheAfter(c, versions, [first]) == Cache(None, Some(map["r" := versions[j].content]), versions[i].modTime);
  }
}

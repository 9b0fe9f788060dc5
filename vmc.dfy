/**
 * The verification-method cache refresh: every configured DID is resolved
 * (did:web through its well-known document, any other DID through the PLC
 * directory), the first key of a document that names the DID is stored, and
 * the cache is swept at the end of the cycle.  The HTTP GET plus JSON
 * decoding is a `Resolver`; the clock reading is the parameter `now`.
 */
module Vmc {
  import opened Wrappers
  import opened Strings
  import opened Storage

  datatype VerificationMethod = VerificationMethod(publicKeyMultibase: string)

  /** The fields of a DID document the refresh reads. */
  datatype ResolvedDid = ResolvedDid(id: string, verificationMethod: seq<VerificationMethod>)

  /** Why a DID gives no key: the request or its decoding failed, the document names another DID, or it lists no key. */
  datatype QueryError = FetchFailed | DidMismatch | NoKeyFound

  /** The GET of a URL and the decoding of its JSON body; `None` for any transport or decoding failure. */
  datatype Resolver = Resolver(fetch: string -> Option<ResolvedDid>)

  /** What the refresh task is configured with. */
  datatype CacheTask = CacheTask(plcHostname: string, dids: set<string>)

  const DID_WEB: string := "did:web:"

  /** Where a DID's document lives. */
  function ResolverUrl(plcHostname: string, did: string): (url: string)
    ensures IsPrefix(DID_WEB, did) ==> url == "https://" + did[|DID_WEB|..] + "/.well-known/did.json"
    ensures !IsPrefix(DID_WEB, did) ==> url == "https://" + plcHostname + "/" + did
  {
    if IsPrefix(DID_WEB, did) then "https://" + did[|DID_WEB|..] + "/.well-known/did.json"
    else "https://" + plcHostname + "/" + did
  }

  /** A did:web document is fetched from the DID's own host, whatever PLC directory is configured. */
  lemma {:induction false} WebDidIgnoresPlc(plcA: string, plcB: string, host: string)
    ensures ResolverUrl(plcA, DID_WEB + host) == ResolverUrl(plcB, DID_WEB + host)
                                              == "https://" + host + "/.well-known/did.json"
  {
    var did := DID_WEB + host;
    assert did[..|DID_WEB|] == DID_WEB;
    assert did[|DID_WEB|..] == host;
  }

  /** Any other DID is fetched from the directory, and the URL's path is the DID itself. */
  lemma {:induction false} PlcUrlEndsWithDid(plcHostname: string, did: string)
    requires !IsPrefix(DID_WEB, did)
    ensures var url := ResolverUrl(plcHostname, did);
      var host := "https://" + plcHostname + "/";
      IsPrefix(host, url) && url[|host|..] == did
  {
    var url := ResolverUrl(plcHostname, did);
    var host := "https://" + plcHostname + "/";
    assert url == host + did;
    assert url[..|host|] == host;
  }

  /** The key a fetched document yields for `did`. */
  function KeyOf(did: string, document: Option<ResolvedDid>): (r: Result<string, QueryError>)
    ensures r.Success? <==> document.Some? && document.value.id == did && |document.value.verificationMethod| > 0
    ensures r.Success? ==> r.value == document.value.verificationMethod[0].publicKeyMultibase
    ensures document.Some? && document.value.id != did ==> r == Failure(DidMismatch)
    ensures document.Some? && document.value.id == did && document.value.verificationMethod == [] ==> r == Failure(NoKeyFound)
  {
    match document
    case None => Failure(FetchFailed)
    case Some(resolved) =>
      if resolved.id != did then Failure(DidMismatch)
      else if |resolved.verificationMethod| == 0 then Failure(NoKeyFound)
      else Success(resolved.verificationMethod[0].publicKeyMultibase)
  }

  /** `plc_query`. */
  function PlcQuery(resolver: Resolver, plcHostname: string, did: string): (r: Result<string, QueryError>)
    ensures var document := resolver.fetch(ResolverUrl(plcHostname, did));
      r.Success? <==> document.Some? && document.value.id == did && document.value.verificationMethod != []
    ensures r.Success? ==> r.value == resolver.fetch(ResolverUrl(plcHostname, did)).value.verificationMethod[0].publicKeyMultibase
    ensures resolver.fetch(ResolverUrl(plcHostname, did)).None? ==> r == Failure(FetchFailed)
  {
    KeyOf(did, resolver.fetch(ResolverUrl(plcHostname, did)))
  }

  /**
   * The cache after the DIDs in `done` have been queried: each that resolved
   * holds its new key stamped `now`; every other entry is as it was.
   */
  function Refreshed(cache: map<string, CacheEntry>, task: CacheTask, resolver: Resolver,
                     done: set<string>, now: int): (r: map<string, CacheEntry>)
    ensures forall did :: did in r <==> did in cache || (did in done && PlcQuery(resolver, task.plcHostname, did).Success?)
    ensures forall did :: did in r && did in done && PlcQuery(resolver, task.plcHostname, did).Success? ==>
      r[did] == CacheEntry(PlcQuery(resolver, task.plcHostname, did).value, now)
    ensures forall did :: did in r && !(did in done && PlcQuery(resolver, task.plcHostname, did).Success?) ==>
      r[did] == cache[did]
  {
    map did | did in cache.Keys + (set d | d in done && PlcQuery(resolver, task.plcHostname, d).Success?) ::
      if did in done && PlcQuery(resolver, task.plcHostname, did).Success?
      then CacheEntry(PlcQuery(resolver, task.plcHostname, did).value, now)
      else cache[did]
  }

  /** A DID that resolves ends the cycle with its new key, stamped `now`. */
  lemma {:induction false} ResolvedDidStored(cache: map<string, CacheEntry>, task: CacheTask, resolver: Resolver, now: int, did: string)
    requires did in task.dids
    requires resolver.fetch(ResolverUrl(task.plcHostname, did)).Some?
    requires var document := resolver.fetch(ResolverUrl(task.plcHostname, did)).value;
      document.id == did && document.verificationMethod != []
    ensures did in Refreshed(cache, task, resolver, task.dids, now)
    ensures Refreshed(cache, task, resolver, task.dids, now)[did]
         == CacheEntry(resolver.fetch(ResolverUrl(task.plcHostname, did)).value.verificationMethod[0].publicKeyMultibase, now)
  {
  }

  /** A DID that does not resolve, or any DID not configured, keeps its entry (or its absence). */
  lemma {:induction false} FailedDidUnchanged(cache: map<string, CacheEntry>, task: CacheTask, resolver: Resolver, now: int, did: string)
    requires did !in task.dids || PlcQuery(resolver, task.plcHostname, did).Failure?
    ensures did in Refreshed(cache, task, resolver, task.dids, now) <==> did in cache
    ensures did in cache ==> Refreshed(cache, task, resolver, task.dids, now)[did] == cache[did]
  {
  }

  /** One more DID queried: the cache changes at that DID alone, and only when it resolved. */
  lemma {:induction false} RefreshedStep(cache: map<string, CacheEntry>, task: CacheTask, resolver: Resolver,
                                         done: set<string>, did: string, now: int)
    requires did !in done
    ensures var before := Refreshed(cache, task, resolver, done, now);
      var query := PlcQuery(resolver, task.plcHostname, did);
      Refreshed(cache, task, resolver, done + {did}, now)
        == if query.Success? then before[did := CacheEntry(query.value, now)] else before
  {
    var before := Refreshed(cache, task, resolver, done, now);
    var after := Refreshed(cache, task, resolver, done + {did}, now);
    var query := PlcQuery(resolver, task.plcHostname, did);
    var expected := if query.Success? then before[did := CacheEntry(query.value, now)] else before;
    assert after.Keys == expected.Keys by {
      forall d
        ensures d in after <==> d in expected
      {
        assert d in done + {did} <==> d in done || d == did;
      }
    }
    forall d | d in after
      ensures after[d] == expected[d]
    {
    }
  }

  /**
   * `main`: query every configured DID, store each key that resolved, skip
   * the rest, then sweep the cache.  The other tables are untouched.
   */
  method RefreshCycle(task: CacheTask, store: Store, resolver: Resolver, now: int, expired: (string, CacheEntry) -> bool)
    modifies store
    ensures store.verificationMethodCache
         == Sweep(Refreshed(old(store.verificationMethodCache), task, resolver, task.dids, now), expired)
    ensures store.feedContent == old(store.feedContent)
    ensures store.consumerControl == old(store.consumerControl)
  {
    var remaining := task.dids;
    ghost var done: set<string> := {};
    ghost var start := store.verificationMethodCache;
    while remaining != {}
      invariant remaining + done == task.dids && remaining !! done
      invariant store.verificationMethodCache == Refreshed(start, task, resolver, done, now)
      invariant store.feedContent == old(store.feedContent)
      invariant store.consumerControl == old(store.consumerControl)
      decreases remaining
    {
      var did :| did in remaining;
      RefreshedStep(start, task, resolver, done, did, now);
      var query := PlcQuery(resolver, task.plcHostname, did);
      if query.Success? {
        store.VerificationMethodInsert(did, query.value, now);
      }
      remaining := remaining - {did};
      done := done + {did};
    }
    store.VerificationMethodCleanup(expired);
  }
}

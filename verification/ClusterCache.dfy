/**
 The cluster-record cache of internal/awsapi/credentials.go. The mutex protects the map only; it is not held
 while OCM is asked, so lookups for one key overlap and write in any order.
 */
module ClusterCache {
  import opened Basics

  // What is read from an OCM cluster record.
  datatype Record = Record(region: string, infraId: string)

  datatype Entry = Entry(record: Record, expires: int)

  datatype Origin = Fetched | Served(storedAt: int, readAt: int)

  datatype Pc =
    | Ready                                     // before p.mu.Lock
    | Read(key: string, entry: Option<Entry>)   // lock released, entry in hand
    | Asking(key: string)                       // inside p.clusters.Get
    | Answered(key: string, record: Record)     // lookup succeeded, about to store
    | Returned(key: string, record: Record, origin: Origin)
    | Failed(key: string)

  datatype State = State(
    ttl: int,
    clock: int,
    cache: map<string, Entry>,
    calls: seq<Pc>,                          // one entry per call of cluster
    answers: set<(nat, string, Record)>,     // history: which call's lookup of which key answered what
    stores: set<(string, Record, int)>       // history: what was written to the cache, and when
  )

  datatype Event =
    | Elapse(nanos: nat)
    | Enter(c: nat, key: string)
    | Decide(c: nat)
    | Answer(c: nat, answer: Option<Record>)
    | Store(c: nat)

  predicate Enabled(s: State, e: Event) {
    match e
    case Elapse(_) => true
    case Enter(c, _) => c < |s.calls| && s.calls[c].Ready?
    case Decide(c) => c < |s.calls| && s.calls[c].Read?
    case Answer(c, _) => c < |s.calls| && s.calls[c].Asking?
    case Store(c) => c < |s.calls| && s.calls[c].Answered?
  }

  function Lookup(cache: map<string, Entry>, key: string): Option<Entry> {
    if key in cache then Some(cache[key]) else None
  }

  // `cached && p.now().Before(entry.expires)`
  predicate Fresh(entry: Option<Entry>, now: int) {
    entry.Some? && now < entry.value.expires
  }

  function Next(s: State, e: Event): State
    requires Enabled(s, e)
  {
    match e
    case Elapse(nanos) => s.(clock := s.clock + nanos)
    case Enter(c, key) => s.(calls := s.calls[c := Read(key, Lookup(s.cache, key))])
    case Decide(c) =>
      var key, entry := s.calls[c].key, s.calls[c].entry;
      if Fresh(entry, s.clock) then
        s.(calls := s.calls[c := Returned(key, entry.value.record, Served(entry.value.expires - s.ttl, s.clock))])
      else s.(calls := s.calls[c := Asking(key)])
    case Answer(c, answer) =>
      var key := s.calls[c].key;
      if answer.None? then s.(calls := s.calls[c := Failed(key)])
      else s.(calls := s.calls[c := Answered(key, answer.value)], answers := s.answers + {(c, key, answer.value)})
    case Store(c) =>
      var key, record := s.calls[c].key, s.calls[c].record;
      s.(cache := s.cache[key := Entry(record, s.clock + s.ttl)],
         calls := s.calls[c := Returned(key, record, Fetched)],
         stores := s.stores + {(key, record, s.clock)})
  }

  predicate Init(s: State) {
    s.cache == map[] && s.answers == {} && s.stores == {} && forall c :: 0 <= c < |s.calls| ==> s.calls[c].Ready?
  }

  ghost predicate IsRun(states: seq<State>, events: seq<Event>) {
    |states| == |events| + 1 && Init(states[0]) &&
    forall i :: 0 <= i < |events| ==> Enabled(states[i], events[i]) && states[i + 1] == Next(states[i], events[i])
  }

  // OCM answered this for this key, in some call.
  ghost predicate Genuine(s: State, key: string, record: Record) {
    exists c :: (c, key, record) in s.answers
  }

  // The entry was written for this key, from an answer, its lifetime ago.
  ghost predicate EntryOk(s: State, key: string, entry: Entry) {
    (key, entry.record, entry.expires - s.ttl) in s.stores
  }

  ghost predicate CallOk(s: State, c: nat)
    requires c < |s.calls|
  {
    match s.calls[c]
    case Read(key, entry) => entry.Some? ==> EntryOk(s, key, entry.value)
    case Answered(key, record) => (c, key, record) in s.answers
    case Returned(key, record, Fetched) => (c, key, record) in s.answers
    case Returned(key, record, Served(storedAt, readAt)) =>
      (key, record, storedAt) in s.stores && storedAt <= readAt < storedAt + s.ttl && readAt <= s.clock
    case _ => true
  }

  ghost predicate Inv(s: State) {
    (forall key :: key in s.cache ==> EntryOk(s, key, s.cache[key])) &&
    (forall key, record, at :: (key, record, at) in s.stores ==> at <= s.clock && Genuine(s, key, record)) &&
    (forall c :: 0 <= c < |s.calls| ==> CallOk(s, c))
  }

  lemma CallKept(s: State, e: Event, c: nat)
    requires Inv(s) && Enabled(s, e) && c < |s.calls|
    ensures |Next(s, e).calls| == |s.calls| && CallOk(Next(s, e), c)
  {
    assert CallOk(s, c);
    assert (e.Decide? || e.Store?) ==> CallOk(s, e.c);
  }

  lemma StoresKept(s: State, e: Event)
    requires Inv(s) && Enabled(s, e)
    ensures var s' := Next(s, e);
            && (forall key :: key in s'.cache ==> EntryOk(s', key, s'.cache[key]))
            && forall key, record, at :: (key, record, at) in s'.stores ==> at <= s'.clock && Genuine(s', key, record)
  {
    var s' := Next(s, e);
    forall key, record, at | (key, record, at) in s'.stores
      ensures at <= s'.clock && Genuine(s', key, record)
    {
      if (key, record, at) in s.stores {
        var c :| (c, key, record) in s.answers;
        assert (c, key, record) in s'.answers;
      } else {
        assert CallOk(s, e.c);
      }
    }
  }

  lemma {:induction false} InvAlways(states: seq<State>, events: seq<Event>, i: nat)
    requires IsRun(states, events) && i < |states|
    ensures Inv(states[i])
  {
    if i > 0 {
      InvAlways(states, events, i - 1);
      var s, e := states[i - 1], events[i - 1];
      assert Enabled(s, e) && states[i - 1 + 1] == Next(s, e);
      StoresKept(s, e);
      forall c: nat | c < |Next(s, e).calls|
        ensures CallOk(Next(s, e), c)
      {
        CallKept(s, e, c);
      }
    }
  }

  // Whatever a call returns for a key, OCM answered for that key: to this very call, or to one that stored it less
  // than the lifetime before the clock reading that served it. Failed lookups leave nothing behind.
  lemma ReturnsAreGenuine(states: seq<State>, events: seq<Event>, i: nat, c: nat)
    requires IsRun(states, events) && i < |states| && c < |states[i].calls| && states[i].calls[c].Returned?
    ensures var s, r := states[i], states[i].calls[c];
            && Genuine(s, r.key, r.record)
            && (r.origin.Fetched? ==> (c, r.key, r.record) in s.answers)
            && (r.origin.Served? ==> (r.key, r.record, r.origin.storedAt) in s.stores
                                     && r.origin.storedAt <= r.origin.readAt < r.origin.storedAt + s.ttl
                                     && r.origin.readAt <= s.clock)
  {
    InvAlways(states, events, i);
    assert CallOk(states[i], c);
  }

  // A call that found an entry is served from it exactly while the clock has not reached the entry's expiry; OCM is
  // asked otherwise.
  lemma ServedUntilExpiry(states: seq<State>, events: seq<Event>, i: nat, c: nat)
    requires IsRun(states, events) && i < |events| && events[i] == Decide(c)
    ensures c < |states[i].calls| && states[i].calls[c].Read? && c < |states[i + 1].calls|
    ensures var before, after := states[i].calls[c], states[i + 1].calls[c];
            if before.entry.Some? && states[i].clock < before.entry.value.expires then
              && after == Returned(before.key, before.entry.value.record, after.origin) && after.origin.Served?
              && (before.key, before.entry.value.record, before.entry.value.expires - states[i].ttl) in states[i].stores
            else after == Asking(before.key)
  {
    InvAlways(states, events, i);
    assert CallOk(states[i], c);
  }

  lemma CacheHoldsOnlyAnswers(states: seq<State>, events: seq<Event>, i: nat, key: string)
    requires IsRun(states, events) && i < |states| && key in states[i].cache
    ensures Genuine(states[i], key, states[i].cache[key].record)
    ensures states[i].cache[key].expires <= states[i].clock + states[i].ttl
  {
    InvAlways(states, events, i);
    assert EntryOk(states[i], key, states[i].cache[key]);
  }

  // DefaultRegion and ClusterInfraID over the record that cluster returned; an unset field is an error.
  function DefaultRegion(record: Option<Record>): Option<string> {
    if record.None? || record.value.region == "" then None else Some(record.value.region)
  }

  function ClusterInfraId(record: Option<Record>): Option<string> {
    if record.None? || record.value.infraId == "" then None else Some(record.value.infraId)
  }

  // When OCM's record of a key never changes, the cached provider answers what an uncached one would.
  lemma CacheIsTransparent(states: seq<State>, events: seq<Event>, i: nat, c: nat, truth: Record)
    requires IsRun(states, events) && i < |states| && c < |states[i].calls| && states[i].calls[c].Returned?
    requires forall d, record :: (d, states[i].calls[c].key, record) in states[i].answers ==> record == truth
    ensures states[i].calls[c].record == truth
    ensures DefaultRegion(Some(states[i].calls[c].record)) == DefaultRegion(Some(truth))
    ensures ClusterInfraId(Some(states[i].calls[c].record)) == ClusterInfraId(Some(truth))
  {
    ReturnsAreGenuine(states, events, i, c);
  }

  // The provider as the object the source has. `Cluster` is one call that nothing overlaps: `answer` is what
  // OCM would say, and the two clock readings are those of the expiry check and of the store.
  class CloudCredentialsProvider {
    const ttl: int
    var clusterCache: map<string, Entry>

    constructor (ttl: int)
      ensures this.ttl == ttl && clusterCache == map[]
    {
      this.ttl, clusterCache := ttl, map[];
    }

    method StoreEntry(key: string, record: Record, now: int)
      modifies this
      ensures clusterCache == old(clusterCache)[key := Entry(record, now + ttl)]
    {
      clusterCache := clusterCache[key := Entry(record, now + ttl)];
    }

    method Cluster(key: string, readAt: int, answer: Option<Record>, storedAt: int) returns (record: Option<Record>)
      modifies this
      ensures key in old(clusterCache) && readAt < old(clusterCache)[key].expires ==>
                record == Some(old(clusterCache)[key].record) && clusterCache == old(clusterCache)
      ensures key !in old(clusterCache) || readAt >= old(clusterCache)[key].expires ==>
                record == answer && (answer.None? ==> clusterCache == old(clusterCache))
      ensures (key !in old(clusterCache) || readAt >= old(clusterCache)[key].expires) && answer.Some? ==>
                clusterCache == old(clusterCache)[key := Entry(answer.value, storedAt + ttl)]
    {
      if key in clusterCache && readAt < clusterCache[key].expires {
        return Some(clusterCache[key].record);
      }
      if answer.None? {
        return None;
      }
      StoreEntry(key, answer.value, storedAt);
      return answer;
    }
  }
}

/** The per-tenant gateway cache against the settings row it copies: an entry lives for a fixed
    time, an update writes the row and then drops the entry, and loads run in between. */
module GatewayCache {

  import opened Wrappers

  /** Decrypted API keys by provider; a gateway is determined by them. */
  type Keys = map<string, string>

  /** Milliseconds. */
  const TTL := 300000

  // ----- The cache object -----

  datatype CacheEntry = CacheEntry(keys: Keys, expiresAt: int)

  predicate Live(entries: map<string, CacheEntry>, tenant: string, now: int) {
    tenant in entries && now <= entries[tenant].expiresAt
  }

  class TenantGatewayCache {
    var entries: map<string, CacheEntry>

    constructor ()
      ensures entries == map[]
    {
      entries := map[];
    }

    /** An expired entry is evicted by the look-up that finds it. */
    method Get(tenant: string, now: int) returns (found: Option<Keys>)
      modifies this
      ensures found == if old(Live(entries, tenant, now)) then Some(old(entries[tenant].keys)) else None
      ensures entries == if old(Live(entries, tenant, now)) then old(entries) else old(entries) - {tenant}
      ensures found.Some? <==> tenant in old(entries) && now <= old(entries)[tenant].expiresAt
    {
      if tenant !in entries {
        assert entries == entries - {tenant};
        return None;
      }
      if now > entries[tenant].expiresAt {
        entries := entries - {tenant};
        return None;
      }
      found := Some(entries[tenant].keys);
    }

    method Set(tenant: string, keys: Keys, ttl: int, now: int)
      modifies this
      ensures entries == old(entries)[tenant := CacheEntry(keys, now + ttl)]
      ensures forall t: int :: Live(entries, tenant, t) <==> t <= now + ttl
    {
      entries := entries[tenant := CacheEntry(keys, now + ttl)];
    }

    method Invalidate(tenant: string)
      modifies this
      ensures entries == old(entries) - {tenant}
      ensures forall t: int :: !Live(entries, tenant, t)
    {
      entries := entries - {tenant};
    }

    /** Look up, else read the row, decrypt, and remember the result unless it is empty. */
    method Resolve(tenant: string, row: Option<map<string, string>>, decrypt: string -> Option<string>, now: int)
      returns (keys: Option<Keys>)
      modifies this
      ensures old(Live(entries, tenant, now)) ==> keys == Some(old(entries[tenant].keys)) && entries == old(entries)
      ensures !old(Live(entries, tenant, now)) ==>
        && keys == (if row.Some? && Usable(row.value, decrypt) != map[] then Some(Usable(row.value, decrypt)) else None)
        && entries == (if keys.Some? then old(entries)[tenant := CacheEntry(keys.value, now + 5 * 60 * 1000)] else old(entries) - {tenant})
    {
      keys := Get(tenant, now);
      if keys.Some? {
        return;
      }
      if row.None? {
        return None;
      }
      var decrypted := DecryptKeys(row.value, decrypt);
      if decrypted == map[] {
        return None;
      }
      Set(tenant, decrypted, TTL, now);
      keys := Some(decrypted);
    }
  }

  predicate Readable(stored: map<string, string>, decrypt: string -> Option<string>, provider: string) {
    provider in stored && stored[provider] != "" && decrypt(stored[provider]).Some?
  }

  /** The providers whose stored key is not empty and decrypts, with the decrypted key. */
  function Usable(stored: map<string, string>, decrypt: string -> Option<string>): Keys {
    map p | p in stored && Readable(stored, decrypt, p) :: decrypt(stored[p]).value
  }

  /** The loop over the stored keys, in whatever order the map yields them. */
  method DecryptKeys(stored: map<string, string>, decrypt: string -> Option<string>) returns (keys: Keys)
    ensures keys == Usable(stored, decrypt)
    ensures forall p :: p in keys <==> p in stored && stored[p] != "" && decrypt(stored[p]).Some?
    ensures forall p | p in keys :: decrypt(stored[p]) == Some(keys[p])
  {
    keys := map[];
    var todo := stored.Keys;
    while todo != {}
      invariant todo <= stored.Keys
      invariant keys == map p | p in stored && p !in todo && Readable(stored, decrypt, p) :: decrypt(stored[p]).value
    {
      var p :| p in todo;
      todo := todo - {p};
      if stored[p] != "" {
        var plain := decrypt(stored[p]);
        if plain.Some? {
          keys := keys[p := plain.value];
        }
      }
    }
  }

  // ----- Loads and updates interleaving -----

  /** One value the row held: what it decrypts to and when it was written. */
  datatype Version = Version(keys: Keys, writtenAt: int)

  /** An entry with its pedigree: which version it copies, when that was read and when it was stored. */
  datatype Entry = Entry(keys: Keys, expiresAt: int, version: nat, readAt: int, storedAt: int)

  datatype Hit = Hit(tenant: string, at: int, entry: Entry)

  datatype Pc =
    | Looking(tenant: string)                                              // about to look into the cache
    | Querying(tenant: string)                                             // missed, about to read the row
    | Holding(tenant: string, keys: Keys, version: nat, readAt: int)       // row read, about to store
    | Writing(tenant: string, keys: Keys)                                  // update: about to write the row
    | Written(tenant: string, version: nat)                                // row written, about to invalidate
    | Answered(found: Option<Keys>)                                        // load: over
    | Finished                                                             // update: over

  datatype Sys = Sys(now: int, rows: map<string, seq<Version>>, cache: map<string, Entry>, reqs: map<nat, Pc>, hits: seq<Hit>)

  datatype Action =
    | Load(id: nat, tenant: string)
    | Update(id: nat, tenant: string, keys: Keys)
    | Step(id: nat, db: Db)
    | Tick(elapsed: nat)

  const INIT := Sys(0, map[], map[], map[], [])

  function RowOf(s: Sys, tenant: string): seq<Version> {
    if tenant in s.rows then s.rows[tenant] else []
  }

  function At(s: Sys, id: nat, pc: Pc): Sys {
    s.(reqs := s.reqs[id := pc])
  }

  function LookStep(s: Sys, id: nat, t: string): Sys {
    if t !in s.cache then At(s, id, Querying(t))
    else if s.now > s.cache[t].expiresAt then At(s.(cache := s.cache - {t}), id, Querying(t))
    else At(s.(hits := s.hits + [Hit(t, s.now, s.cache[t])]), id, Answered(Some(s.cache[t].keys)))
  }

  /** A failed query or an empty key set ends the load without storing anything. */
  function QueryStep(s: Sys, id: nat, t: string, db: Db): Sys {
    var row := RowOf(s, t);
    if !db.Done? || row == [] || row[|row| - 1].keys == map[] then At(s, id, Answered(None))
    else At(s, id, Holding(t, row[|row| - 1].keys, |row| - 1, s.now))
  }

  function StoreStep(s: Sys, id: nat, t: string, keys: Keys, version: nat, readAt: int): Sys {
    At(s.(cache := s.cache[t := Entry(keys, s.now + TTL, version, readAt, s.now)]), id, Answered(Some(keys)))
  }

  /** A statement that reports an error ends the update without invalidating, even if it was applied. */
  function WriteStep(s: Sys, id: nat, t: string, keys: Keys, db: Db): Sys {
    if db == Lost(false) then At(s, id, Finished)
    else
      At(s.(rows := s.rows[t := RowOf(s, t) + [Version(keys, s.now)]]), id, if db.Done? then Written(t, |RowOf(s, t)|) else Finished)
  }

  function InvalidateStep(s: Sys, id: nat, t: string): Sys {
    At(s.(cache := s.cache - {t}), id, Finished)
  }

  function Next(s: Sys, a: Action): Sys {
    match a
    case Load(id, t) => if id in s.reqs then s else At(s, id, Looking(t))
    case Update(id, t, keys) => if id in s.reqs then s else At(s, id, Writing(t, keys))
    case Tick(elapsed) => s.(now := s.now + elapsed)
    case Step(id, db) =>
      if id !in s.reqs then s
      else match s.reqs[id]
        case Looking(t) => LookStep(s, id, t)
        case Querying(t) => QueryStep(s, id, t, db)
        case Holding(t, keys, v, r) => StoreStep(s, id, t, keys, v, r)
        case Writing(t, keys) => WriteStep(s, id, t, keys, db)
        case Written(t, _) => InvalidateStep(s, id, t)
        case _ => s
  }

  function ExecFrom(s: Sys, acts: seq<Action>): Sys
    decreases |acts|
  {
    if acts == [] then s else ExecFrom(Next(s, acts[0]), acts[1..])
  }

  function Exec(acts: seq<Action>): Sys {
    ExecFrom(INIT, acts)
  }

  // ----- The machine and the object -----

  /** The cache as the object has it, without pedigrees. */
  function Plain(cache: map<string, Entry>): map<string, CacheEntry> {
    map t | t in cache :: CacheEntry(cache[t].keys, cache[t].expiresAt)
  }

  lemma HitAgreesWithObject(s: Sys, id: nat, t: string, db: Db)
    requires id in s.reqs && s.reqs[id] == Looking(t) && Live(Plain(s.cache), t, s.now)
    ensures Next(s, Step(id, db)) == At(s, id, Answered(Some(Plain(s.cache)[t].keys))).(hits := s.hits + [Hit(t, s.now, s.cache[t])])
  {
  }

  /** The keys the row holds now; none while there is no row. */
  function CurrentKeys(s: Sys, t: string): Keys {
    var row := RowOf(s, t); if row == [] then map[] else row[|row| - 1].keys
  }

  lemma MissQueries(s: Sys, id: nat, t: string, db: Db)
    requires id in s.reqs && s.reqs[id] == Looking(t) && !Live(Plain(s.cache), t, s.now)
    ensures Next(s, Step(id, db)) == At(s.(cache := s.cache - {t}), id, Querying(t))
  {
    assert t !in s.cache ==> s.cache - {t} == s.cache;
  }

  lemma QueryAgreesWithObject(s: Sys, id: nat, t: string)
    requires id in s.reqs && s.reqs[id] == Querying(t)
    ensures var keys := CurrentKeys(s, t); var end := Next(Next(s, Step(id, Done)), Step(id, Done));
      && id in end.reqs && end.reqs[id] == Answered(if keys == map[] then None else Some(keys))
      && Plain(end.cache) == if keys == map[] then Plain(s.cache) else Plain(s.cache)[t := CacheEntry(keys, s.now + TTL)]
  {
  }

  /** A load that nobody disturbs answers what `Resolve` answers and leaves the cache as `Resolve` does. */
  lemma MachineAgreesWithObject(s: Sys, id: nat, t: string)
    requires id in s.reqs && s.reqs[id] == Looking(t)
    ensures var step := Step(id, Done); var end := Next(Next(Next(s, step), step), step);
      var keys := CurrentKeys(s, t);
      id in end.reqs &&
      if Live(Plain(s.cache), t, s.now) then end.reqs[id] == Answered(Some(Plain(s.cache)[t].keys)) && end.cache == s.cache
      else if keys == map[] then end.reqs[id] == Answered(None) && Plain(end.cache) == Plain(s.cache) - {t}
      else end.reqs[id] == Answered(Some(keys)) && Plain(end.cache) == Plain(s.cache)[t := CacheEntry(keys, s.now + TTL)]
  {
    if Live(Plain(s.cache), t, s.now) {
      HitAgreesWithObject(s, id, t, Done);
    } else {
      MissQueries(s, id, t, Done);
      QueryAgreesWithObject(At(s.(cache := s.cache - {t}), id, Querying(t)), id, t);
    }
  }

  /** An update that nobody disturbs puts its keys into the row behind all earlier ones and leaves no entry. */
  lemma UpdateWrites(s: Sys, id: nat)
    requires id in s.reqs && s.reqs[id].Writing?
    ensures var t := s.reqs[id].tenant; var end := Next(Next(s, Step(id, Done)), Step(id, Done));
      && id in end.reqs && end.reqs == s.reqs[id := Finished] && t !in end.cache && end.now == s.now
      && RowOf(end, t) == RowOf(s, t) + [Version(s.reqs[id].keys, s.now)]
  {
    var t, keys := s.reqs[id].tenant, s.reqs[id].keys;
    var s1 := Next(s, Step(id, Done));
    assert s1 == WriteStep(s, id, t, keys, Done);
    assert s1.reqs[id] == Written(t, |RowOf(s, t)|);
    assert s1.reqs[id := Finished] == s.reqs[id := Finished];
  }

  /** The round trip: what an update stored is what the next load answers. */
  lemma UpdateThenLoad(s: Sys, id: nat, load: nat)
    requires id in s.reqs && s.reqs[id].Writing? && load != id && load in s.reqs && s.reqs[load] == Looking(s.reqs[id].tenant)
    ensures var keys, write, read := s.reqs[id].keys, Step(id, Done), Step(load, Done);
      var end := Next(Next(Next(Next(Next(s, write), write), read), read), read);
      load in end.reqs && end.reqs[load] == Answered(if keys == map[] then None else Some(keys))
  {
    UpdateWrites(s, id);
    MachineAgreesWithObject(Next(Next(s, Step(id, Done)), Step(id, Done)), load, s.reqs[id].tenant);
  }

  /** A load whose query fails answers nothing and stores nothing. */
  lemma LostQueryAnswersNothing(s: Sys, id: nat, db: Db)
    requires id in s.reqs && s.reqs[id].Querying? && db.Lost?
    ensures Next(s, Step(id, db)) == At(s, id, Answered(None))
  {
  }

  // ----- Every hit is a value the row held -----

  /** At time `at` the row's newest version was number `v`, and it decrypted to `keys`. */
  predicate Held(row: seq<Version>, v: nat, keys: Keys, at: int) {
    && v < |row|
    && row[v].keys == keys
    && row[v].writtenAt <= at
    && (v + 1 < |row| ==> at <= row[v + 1].writtenAt)
  }

  predicate EntryOk(s: Sys, t: string, e: Entry) {
    Held(RowOf(s, t), e.version, e.keys, e.readAt) && e.readAt <= e.storedAt <= s.now && e.expiresAt == e.storedAt + TTL
  }

  predicate HitOk(s: Sys, h: Hit) {
    EntryOk(s, h.tenant, h.entry) && h.entry.storedAt <= h.at <= h.entry.expiresAt && h.at <= s.now
  }

  predicate ReqOk(s: Sys, pc: Pc) {
    && (pc.Holding? ==> Held(RowOf(s, pc.tenant), pc.version, pc.keys, pc.readAt) && pc.readAt <= s.now && pc.keys != map[])
    && (pc.Written? ==> pc.version < |RowOf(s, pc.tenant)|)
  }

  predicate Ordered(row: seq<Version>, now: int) {
    && (forall i, j | 0 <= i < j < |row| :: row[i].writtenAt <= row[j].writtenAt)
    && (forall i | 0 <= i < |row| :: row[i].writtenAt <= now)
  }

  ghost predicate Inv(s: Sys) {
    && (forall t | t in s.rows :: Ordered(s.rows[t], s.now))
    && (forall t | t in s.cache :: EntryOk(s, t, s.cache[t]))
    && (forall i | 0 <= i < |s.hits| :: HitOk(s, s.hits[i]))
    && (forall id | id in s.reqs :: ReqOk(s, s.reqs[id]))
  }

  /** A step appends at most one version, written now. */
  predicate Grew(row: seq<Version>, row': seq<Version>, now: int) {
    row' == row || (|row'| == |row| + 1 && row'[..|row|] == row && row'[|row|].writtenAt == now)
  }

  lemma RowGrows(s: Sys, a: Action, t: string)
    ensures Grew(RowOf(s, t), RowOf(Next(s, a), t), s.now) && s.now <= Next(s, a).now
    ensures Next(s, a).now != s.now ==> Next(s, a) == s.(now := Next(s, a).now)
  {
  }

  /** A later write does not change what the row held before. */
  lemma HeldPersists(row: seq<Version>, row': seq<Version>, now: int, v: nat, keys: Keys, at: int)
    requires Held(row, v, keys, at) && at <= now && Grew(row, row', now)
    ensures Held(row', v, keys, at)
  {
    assert row'[..|row|][v] == row'[v];
    assert v + 1 < |row| ==> row'[..|row|][v + 1] == row'[v + 1];
  }

  lemma GrownIsOrdered(row: seq<Version>, row': seq<Version>, now: int, later: int)
    requires Ordered(row, now) && Grew(row, row', now) && now <= later
    ensures Ordered(row', later)
  {
    forall i | 0 <= i < |row| ensures row'[i] == row[i] {
      assert row'[..|row|][i] == row'[i];
    }
  }

  lemma RowsKept(s: Sys, a: Action, t: string)
    requires forall u | u in s.rows :: Ordered(s.rows[u], s.now)
    ensures Ordered(RowOf(Next(s, a), t), Next(s, a).now)
  {
    RowGrows(s, a, t);
    GrownIsOrdered(RowOf(s, t), RowOf(Next(s, a), t), s.now, Next(s, a).now);
  }

  lemma EntryPersists(s: Sys, a: Action, t: string, e: Entry)
    requires EntryOk(s, t, e)
    ensures EntryOk(Next(s, a), t, e)
  {
    RowGrows(s, a, t);
    HeldPersists(RowOf(s, t), RowOf(Next(s, a), t), s.now, e.version, e.keys, e.readAt);
  }

  lemma CacheKept(s: Sys, a: Action, t: string)
    requires Inv(s) && t in Next(s, a).cache
    ensures EntryOk(Next(s, a), t, Next(s, a).cache[t])
  {
    if a.Step? && a.id in s.reqs && s.reqs[a.id].Holding? && s.reqs[a.id].tenant == t {
      assert ReqOk(s, s.reqs[a.id]);
      assert RowOf(Next(s, a), t) == RowOf(s, t);
    } else {
      assert Next(s, a).cache[t] == s.cache[t];
      EntryPersists(s, a, t, s.cache[t]);
    }
  }

  lemma HitKept(s: Sys, a: Action, i: nat)
    requires Inv(s) && i < |Next(s, a).hits|
    ensures HitOk(Next(s, a), Next(s, a).hits[i])
  {
    if i < |s.hits| {
      assert HitOk(s, s.hits[i]);
      RowGrows(s, a, s.hits[i].tenant);
      EntryPersists(s, a, s.hits[i].tenant, s.hits[i].entry);
    } else {
      var t := s.reqs[a.id].tenant;
      assert EntryOk(s, t, s.cache[t]);
    }
  }

  lemma ReqPersists(s: Sys, a: Action, pc: Pc)
    requires ReqOk(s, pc)
    ensures ReqOk(Next(s, a), pc)
  {
    if pc.Holding? {
      RowGrows(s, a, pc.tenant);
      HeldPersists(RowOf(s, pc.tenant), RowOf(Next(s, a), pc.tenant), s.now, pc.version, pc.keys, pc.readAt);
    } else if pc.Written? {
      RowGrows(s, a, pc.tenant);
    }
  }

  /** What a load reads is the row's newest version. */
  lemma QueryReadsRow(s: Sys, id: nat, t: string, db: Db)
    requires Ordered(RowOf(s, t), s.now)
    ensures ReqOk(QueryStep(s, id, t, db), QueryStep(s, id, t, db).reqs[id])
  {
    assert RowOf(QueryStep(s, id, t, db), t) == RowOf(s, t);
  }

  lemma OwnMoveOk(s: Sys, id: nat, db: Db)
    requires id in s.reqs && !s.reqs[id].Querying?
    ensures var s' := Next(s, Step(id, db)); id in s'.reqs && ReqOk(s', s'.reqs[id])
  {
    match s.reqs[id]
    case Writing(t, keys) => assert db != Lost(false) ==> RowOf(WriteStep(s, id, t, keys, db), t) == RowOf(s, t) + [Version(keys, s.now)];
    case _ =>
  }

  lemma ReqKept(s: Sys, a: Action, id: nat)
    requires forall t | t in s.rows :: Ordered(s.rows[t], s.now)
    requires id in Next(s, a).reqs && (id in s.reqs ==> ReqOk(s, s.reqs[id]))
    ensures ReqOk(Next(s, a), Next(s, a).reqs[id])
  {
    if a.Step? && a.id == id && id in s.reqs && s.reqs[id].Querying? {
      QueryReadsRow(s, id, s.reqs[id].tenant, a.db);
    } else if a.Step? && a.id == id && id in s.reqs {
      OwnMoveOk(s, id, a.db);
    } else if id in s.reqs {
      assert Next(s, a).reqs[id] == s.reqs[id];
      ReqPersists(s, a, s.reqs[id]);
    }
  }

  lemma NextKeepsInv(s: Sys, a: Action)
    requires Inv(s)
    ensures Inv(Next(s, a))
  {
    var s' := Next(s, a);
    forall t | t in s'.rows ensures Ordered(s'.rows[t], s'.now) { RowsKept(s, a, t); }
    forall t | t in s'.cache ensures EntryOk(s', t, s'.cache[t]) { CacheKept(s, a, t); }
    forall i | 0 <= i < |s'.hits| ensures HitOk(s', s'.hits[i]) { HitKept(s, a, i); }
    forall id | id in s'.reqs ensures ReqOk(s', s'.reqs[id]) { ReqKept(s, a, id); }
  }

  lemma {:induction false} RunKeepsInv(s: Sys, acts: seq<Action>)
    requires Inv(s)
    ensures Inv(ExecFrom(s, acts))
    decreases |acts|
  {
    if acts != [] {
      NextKeepsInv(s, acts[0]);
      RunKeepsInv(Next(s, acts[0]), acts[1..]);
    }
  }

  /** Under every interleaving a hit at time t returns keys the row held at some time r, stored at s,
      with r <= s <= t <= s + TTL. */
  lemma BoundedStaleness(acts: seq<Action>, i: nat)
    requires i < |Exec(acts).hits|
    ensures var h := Exec(acts).hits[i];
      && Held(RowOf(Exec(acts), h.tenant), h.entry.version, h.entry.keys, h.entry.readAt)
      && h.entry.readAt <= h.entry.storedAt <= h.at <= h.entry.storedAt + 5 * 60 * 1000
  {
    RunKeepsInv(INIT, acts);
    assert HitOk(Exec(acts), Exec(acts).hits[i]);
  }

  // ----- When an update takes effect -----

  /** An entry older than version `v` that a look-up would still return. */
  predicate Outdated(s: Sys, t: string, v: nat) {
    t in s.cache && s.now <= s.cache[t].expiresAt && s.cache[t].version < v
  }

  /** Nothing older than version `v` of tenant `t` is served or about to be stored. */
  ghost predicate Clean(s: Sys, t: string, v: nat) {
    && v < |RowOf(s, t)|
    && !Outdated(s, t, v)
    && (forall id | id in s.reqs && s.reqs[id].Holding? && s.reqs[id].tenant == t :: s.reqs[id].version >= v)
  }

  /** Some load read the row before version `v` was written and has yet to store what it read. */
  ghost predicate Straddled(s: Sys, t: string, v: nat) {
    exists id | id in s.reqs :: s.reqs[id].Holding? && s.reqs[id].tenant == t && s.reqs[id].version < v
  }

  /** Every hit on the tenant during `more` returns version `v` or a newer one. */
  ghost predicate NoStaleHit(s: Sys, t: string, v: nat, more: seq<Action>) {
    var later := ExecFrom(s, more).hits;
    forall i | |s.hits| <= i < |later| && later[i].tenant == t :: later[i].entry.version >= v
  }

  lemma CleanStepCache(s: Sys, a: Action, t: string, v: nat)
    requires Clean(s, t, v)
    ensures !Outdated(Next(s, a), t, v)
    ensures v < |RowOf(Next(s, a), t)|
  {
    RowGrows(s, a, t);
  }

  lemma CleanStepReq(s: Sys, a: Action, t: string, v: nat, id: nat)
    requires Clean(s, t, v)
    requires id in Next(s, a).reqs && Next(s, a).reqs[id].Holding? && Next(s, a).reqs[id].tenant == t
    ensures Next(s, a).reqs[id].version >= v
  {
    if id in s.reqs && a == Step(id, Done) && s.reqs[id].Querying? {
      assert Next(s, a) == QueryStep(s, id, t, Done);
    }
  }

  lemma CleanPersists(s: Sys, a: Action, t: string, v: nat)
    requires Clean(s, t, v)
    ensures Clean(Next(s, a), t, v)
  {
    CleanStepCache(s, a, t, v);
    forall id | id in Next(s, a).reqs && Next(s, a).reqs[id].Holding? && Next(s, a).reqs[id].tenant == t
      ensures Next(s, a).reqs[id].version >= v
    {
      CleanStepReq(s, a, t, v, id);
    }
  }

  lemma HitsGrow(s: Sys, a: Action)
    ensures s.hits <= Next(s, a).hits
    ensures forall i | |s.hits| <= i < |Next(s, a).hits| ::
      var h := Next(s, a).hits[i]; h.tenant in s.cache && h.entry == s.cache[h.tenant] && s.now <= h.entry.expiresAt
  {
  }

  lemma {:induction false} CleanRunIsFresh(s: Sys, t: string, v: nat, more: seq<Action>)
    requires Clean(s, t, v)
    ensures s.hits <= ExecFrom(s, more).hits && NoStaleHit(s, t, v, more)
    decreases |more|
  {
    if more != [] {
      CleanPersists(s, more[0], t, v);
      HitsGrow(s, more[0]);
      CleanRunIsFresh(Next(s, more[0]), t, v, more[1..]);
    }
  }

  lemma UnusedId(used: set<nat>) returns (n: nat)
    ensures n !in used
  {
    var bound: nat := 0;
    var rest := used;
    while rest != {}
      invariant rest <= used
      invariant forall i | i in used && i !in rest :: i < bound
    {
      var i :| i in rest;
      bound := if i >= bound then i + 1 else bound;
      rest := rest - {i};
    }
    n := bound;
  }

  /** An outdated entry is returned by the next look-up. */
  lemma OutdatedIsServed(s: Sys, t: string, v: nat) returns (more: seq<Action>)
    requires Outdated(s, t, v)
    ensures !NoStaleHit(s, t, v, more)
  {
    var n := UnusedId(s.reqs.Keys);
    var a, b := Load(n, t), Step(n, Done);
    more := [a, b];
    var s1 := Next(s, a);
    var s2 := Next(s1, b);
    assert s2.hits == s.hits + [Hit(t, s.now, s.cache[t])];
    assert more[1..] == [b] && [b][1..] == [];
    assert ExecFrom(s, more) == ExecFrom(s1, [b]) == ExecFrom(s2, []) == s2;
    var late := ExecFrom(s, more).hits[|s.hits|];
    assert late.tenant == t && late.entry.version < v;
  }

  /** A straddling load can store its old keys, and the next look-up returns them. */
  lemma StraddlerSpoils(s: Sys, t: string, v: nat, id: nat) returns (more: seq<Action>)
    requires id in s.reqs && s.reqs[id].Holding? && s.reqs[id].tenant == t && s.reqs[id].version < v
    ensures !NoStaleHit(s, t, v, more)
  {
    var a := Step(id, Done);
    var s1 := Next(s, a);
    var rest := OutdatedIsServed(s1, t, v);
    more := [a] + rest;
    assert more[1..] == rest && s1.hits == s.hits;
  }

  /** From any moment on, no run whatsoever can show a hit older than version `v` exactly when no older entry is being served
      and no older load is held. */
  lemma FreshExactly(s: Sys, t: string, v: nat)
    requires v < |RowOf(s, t)|
    ensures (forall more: seq<Action> :: NoStaleHit(s, t, v, more)) <==> !Outdated(s, t, v) && !Straddled(s, t, v)
  {
    if Outdated(s, t, v) {
      var more := OutdatedIsServed(s, t, v);
      assert !NoStaleHit(s, t, v, more);
    } else if Straddled(s, t, v) {
      var load :| load in s.reqs && s.reqs[load].Holding? && s.reqs[load].tenant == t && s.reqs[load].version < v;
      var more := StraddlerSpoils(s, t, v, load);
      assert !NoStaleHit(s, t, v, more);
    } else {
      assert Clean(s, t, v);
      forall more: seq<Action> ensures NoStaleHit(s, t, v, more) {
        CleanRunIsFresh(s, t, v, more);
      }
    }
  }

  /** An update that wrote version `v` and dropped the entry is visible to every later hit exactly when no load
      straddles it at that moment. */
  lemma UpdateVisibleUnlessStraddled(acts: seq<Action>, id: nat, db: Db)
    requires id in Exec(acts).reqs && Exec(acts).reqs[id].Written?
    ensures var s := Exec(acts); var t, v := s.reqs[id].tenant, s.reqs[id].version;
      (forall more: seq<Action> :: NoStaleHit(Next(s, Step(id, db)), t, v, more)) <==> !Straddled(s, t, v)
  {
    var s := Exec(acts);
    var t, v := s.reqs[id].tenant, s.reqs[id].version;
    var done := Next(s, Step(id, db));
    RunKeepsInv(INIT, acts);
    assert ReqOk(s, s.reqs[id]);
    FreshExactly(done, t, v);
    OwnMoveKeepsStraddlers(s, id, t, v, Finished);
    assert done == At(s.(cache := s.cache - {t}), id, Finished);
  }

  /** An update whose statement was applied although it reported an error skips the invalidation: it is visible to every
      later hit exactly when no live entry is cached and no load is held that read the row before. */
  lemma LostUpdateVisibleExactly(acts: seq<Action>, id: nat)
    requires id in Exec(acts).reqs && Exec(acts).reqs[id].Writing?
    ensures var s := Exec(acts); var t := s.reqs[id].tenant; var v := |RowOf(s, t)|; var done := Next(s, Step(id, Lost(true)));
      && v < |RowOf(done, t)| && RowOf(done, t)[v].keys == s.reqs[id].keys
      && ((forall more: seq<Action> :: NoStaleHit(done, t, v, more)) <==> !Live(Plain(s.cache), t, s.now) && !Straddled(s, t, v))
  {
    var s := Exec(acts);
    var t := s.reqs[id].tenant;
    var v := |RowOf(s, t)|;
    var done := Next(s, Step(id, Lost(true)));
    RunKeepsInv(INIT, acts);
    FreshExactly(done, t, v);
    OwnMoveKeepsStraddlers(s, id, t, v, Finished);
    assert t in s.cache ==> EntryOk(s, t, s.cache[t]);
  }

  lemma OwnMoveKeepsStraddlers(s: Sys, id: nat, t: string, v: nat, pc: Pc)
    requires id in s.reqs && !s.reqs[id].Holding? && !pc.Holding?
    ensures Straddled(At(s, id, pc), t, v) <==> Straddled(s, t, v)
  {
    if Straddled(s, t, v) {
      var i :| i in s.reqs && s.reqs[i].Holding? && s.reqs[i].tenant == t && s.reqs[i].version < v;
      assert At(s, id, pc).reqs[i] == s.reqs[i];
    }
  }
}

/** The scan guard's two stores, in memory and as Redis scripts over keys with a time to
    live, and the claim that they are one machine. Times are milliseconds on one clock. */
module ScanGuard {
  import opened Wrappers

  datatype BanRecord = BanRecord(client: string, reason: string, path: string, strikes: nat, since: int, until: int)

  // ---- the length of a ban ----

  function Pow2(n: nat): (p: nat)
    ensures p > 0
  {
    if n == 0 then 1 else 2 * Pow2(n - 1)
  }

  function Capped(a: int, b: int): int {
    if a < b then a else b
  }

  /** Doubled once per strike after the first, capped. */
  function Length(strikes: nat, base: int, max: int): int {
    Capped(base * Pow2(if strikes == 0 then 0 else strikes - 1), max)
  }

  lemma DoublesPast(d: int, n: nat, m: nat)
    requires d >= 0 && n <= m
    ensures d * Pow2(n) <= d * Pow2(m)
    decreases m
  {
    if n < m {
      DoublesPast(d, n, m - 1);
      Doubled(d, Pow2(m - 1));
    }
  }

  lemma Doubled(d: int, p: int)
    requires d >= 0 && p >= 0
    ensures d * (2 * p) == 2 * (d * p) >= d * p
  {
    assert d * p >= 0;
  }

  const MAX_INT64 := 0x7FFF_FFFF_FFFF_FFFF

  /** `banLength`: it is the capped power, and no doubling leaves 64 bits while the cap is
      at most 2^62. */
  method BanLength(strikes: nat, base: int, max: int) returns (d: int)
    requires 0 < base <= 0x4000_0000_0000_0000 && 0 < max <= 0x4000_0000_0000_0000
    ensures d == Capped(base * Pow2(if strikes == 0 then 0 else strikes - 1), max)
  {
    d := base;
    var i := 1;
    while i < strikes && d < max
      invariant 1 <= i && (i <= strikes || i == 1)
      invariant d == base * Pow2(i - 1) && 0 < d <= MAX_INT64
    {
      assert 2 * d <= MAX_INT64;
      d := d * 2;
      i := i + 1;
    }
    if i < strikes {
      DoublesPast(base, i - 1, strikes - 1);
    }
    if d > max {
      d := max;
    }
  }

  /** The loop of the ban script. Lua counts in doubles, exact to 2^53. */
  method ScriptLength(strikes: nat, base: int, max: int) returns (len: int)
    requires strikes > 0 && 0 < base <= 0x10_0000_0000_0000 && 0 < max <= 0x10_0000_0000_0000
    ensures len == Capped(base * Pow2(strikes - 1), max)
  {
    len := base;
    ghost var done := 0;
    for i := 2 to strikes + 1
      invariant done == i - 2 && len == base * Pow2(done) && 0 < len <= 0x20_0000_0000_0000
    {
      if len >= max {
        break;
      }
      assert 2 * len <= 0x20_0000_0000_0000;
      len := len * 2;
      done := done + 1;
    }
    if done < strikes - 1 {
      DoublesPast(base, done, strikes - 1);
    }
    if len > max {
      len := max;
    }
  }

  // ---- what is asked of a store, and what it answers ----

  datatype Op =
    | Miss(key: string, window: int, now: int)
    | Strike(key: string, reason: string, path: string, base: int, max: int, now: int)
    | Unban(key: string, now: int)
    | BannedFor(key: string, now: int)
    | List(now: int)

  datatype Answer = Count(n: nat) | Banned(ban: BanRecord) | Lifted(was: bool) | Left(ms: int)
                  | Bans(bans: set<BanRecord>)

  // ---- listing ----

  /** Exactly these bans, each once, the latest begun first. */
  ghost predicate Listed(out: seq<BanRecord>, bans: set<BanRecord>) {
    && (forall b :: b in out <==> b in bans)
    && (forall i, j | 0 <= i < j < |out| :: out[i] != out[j] && out[i].since >= out[j].since)
  }

  /** One more ban in its place; one already there stays as it is. */
  method InsertBan(b: BanRecord, list: seq<BanRecord>, ghost bans: set<BanRecord>) returns (out: seq<BanRecord>)
    requires Listed(list, bans)
    ensures Listed(out, bans + {b})
  {
    if b in list {
      assert bans + {b} == bans;
      return list;
    }
    var i := 0;
    while i < |list| && list[i].since >= b.since
      invariant 0 <= i <= |list| && forall j | 0 <= j < i :: list[j].since >= b.since
    {
      i := i + 1;
    }
    out := list[..i] + [b] + list[i..];
    Spliced(b, list, i, bans);
  }

  lemma SplicedHas(b: BanRecord, list: seq<BanRecord>, i: nat, x: BanRecord)
    requires i <= |list|
    ensures x in list[..i] + [b] + list[i..] <==> x in list || x == b
  {
    assert list == list[..i] + list[i..];
    assert x in list <==> x in list[..i] || x in list[i..];
  }

  lemma SplicedAt(b: BanRecord, list: seq<BanRecord>, i: nat, j: nat)
    requires i <= |list| && j <= |list|
    ensures (list[..i] + [b] + list[i..])[j] == if j < i then list[j] else if j == i then b else list[j - 1]
  {
  }

  lemma Spliced(b: BanRecord, list: seq<BanRecord>, i: nat, bans: set<BanRecord>)
    requires Listed(list, bans) && b !in list && i <= |list|
    requires forall j | 0 <= j < i :: list[j].since >= b.since
    requires i < |list| ==> list[i].since < b.since
    ensures Listed(list[..i] + [b] + list[i..], bans + {b})
  {
    var out := list[..i] + [b] + list[i..];
    forall x ensures x in out <==> x in bans + {b} {
      SplicedHas(b, list, i, x);
    }
    forall j, k | 0 <= j < k < |out| ensures out[j] != out[k] && out[j].since >= out[k].since {
      SplicedAt(b, list, i, j);
      SplicedAt(b, list, i, k);
      assert i < k - 1 ==> list[i].since >= list[k - 1].since;
    }
  }

  // ---- the memory store ----

  datatype MissWindow = MissWindow(start: int, count: nat)

  datatype Strikes = Strikes(count: nat, expires: int)

  datatype Tables = Tables(misses: map<string, MissWindow>, bans: map<string, BanRecord>, strikes: map<string, Strikes>)

  function MemoryMiss(m: Tables, key: string, window: int, now: int): (Tables, nat) {
    var w := if key !in m.misses || now - m.misses[key].start >= window then MissWindow(now, 0) else m.misses[key];
    (m.(misses := m.misses[key := w.(count := w.count + 1)]), w.count + 1)
  }

  function MemoryBan(m: Tables, key: string, reason: string, path: string, base: int, max: int, now: int)
    : (Tables, BanRecord)
  {
    var count := 1 + if key in m.strikes && now < m.strikes[key].expires then m.strikes[key].count else 0;
    var ban := BanRecord(key, reason, path, count, now, now + Length(count, base, max));
    (Tables(m.misses - {key}, m.bans[key := ban], m.strikes[key := Strikes(count, ban.until + max)]), ban)
  }

  function MemoryUnban(m: Tables, key: string, now: int): (Tables, bool) {
    (Tables(m.misses - {key}, m.bans - {key}, m.strikes - {key}), key in m.bans && now < m.bans[key].until)
  }

  function MemoryBannedFor(m: Tables, key: string, now: int): (Tables, int) {
    if key !in m.bans then (m, 0)
    else if m.bans[key].until - now <= 0 then (m.(bans := m.bans - {key}), 0)
    else (m, m.bans[key].until - now)
  }

  function MemoryList(m: Tables, now: int): set<BanRecord> {
    set key | key in m.bans && now < m.bans[key].until :: m.bans[key]
  }

  class MemoryStore {
    var misses: map<string, MissWindow>
    var bans: map<string, BanRecord>
    var strikes: map<string, Strikes>

    function View(): Tables
      reads this
    {
      Tables(misses, bans, strikes)
    }

    constructor ()
      ensures View() == Tables(map[], map[], map[])
    {
      misses, bans, strikes := map[], map[], map[];
    }

    method Miss(key: string, window: int, now: int) returns (n: nat)
      modifies this`misses
      ensures (View(), n) == MemoryMiss(old(View()), key, window, now)
    {
      if key !in misses || now - misses[key].start >= window {
        misses := misses[key := MissWindow(now, 0)];
      }
      var w := misses[key];
      n := w.count + 1;
      misses := misses[key := w.(count := n)];
      assert misses == old(misses)[key := w.(count := n)];
    }

    method Ban(key: string, reason: string, path: string, base: int, max: int, now: int) returns (ban: BanRecord)
      requires 0 < base <= 0x4000_0000_0000_0000 && 0 < max <= 0x4000_0000_0000_0000
      modifies this
      ensures (View(), ban) == MemoryBan(old(View()), key, reason, path, base, max, now)
    {
      var s := Strikes(0, 0);
      if key in strikes && now < strikes[key].expires {
        s := strikes[key];
      }
      s := s.(count := s.count + 1);
      var len := BanLength(s.count, base, max);
      ban := BanRecord(key, reason, path, s.count, now, now + len);
      s := s.(expires := ban.until + max);
      strikes := strikes[key := s];
      bans := bans[key := ban];
      misses := misses - {key};
    }

    method Unban(key: string, now: int) returns (was: bool)
      modifies this
      ensures (View(), was) == MemoryUnban(old(View()), key, now)
    {
      strikes := strikes - {key};
      misses := misses - {key};
      was := key in bans && now < bans[key].until;
      bans := bans - {key};
    }

    method BannedFor(key: string, now: int) returns (left: int)
      modifies this`bans
      ensures (View(), left) == MemoryBannedFor(old(View()), key, now)
    {
      if key !in bans {
        return 0;
      }
      left := bans[key].until - now;
      if left <= 0 {
        bans := bans - {key};
        return 0;
      }
    }

    method List(now: int) returns (out: seq<BanRecord>)
      ensures Listed(out, MemoryList(View(), now))
    {
      out := [];
      var keys := bans.Keys;
      while keys != {}
        invariant keys <= bans.Keys
        invariant Listed(out, set key | key in bans && key !in keys && now < bans[key].until :: bans[key])
        decreases keys
      {
        var k :| k in keys;
        ghost var before := set key | key in bans && key !in keys && now < bans[key].until :: bans[key];
        keys := keys - {k};
        ghost var after := set key | key in bans && key !in keys && now < bans[key].until :: bans[key];
        if now < bans[k].until {
          assert after == before + {bans[k]};
          out := InsertBan(bans[k], out, before);
        } else {
          assert after == before;
        }
      }
    }
  }

  // ---- Redis: keys with a time to live, and the few commands the scripts use ----

  datatype Kind = BanKey | StrikesKey | MissKey

  datatype RedisKey = RedisKey(client: string, kind: Kind)

  datatype Value = Number(n: nat) | Stored(ban: BanRecord)

  datatype Keyed = Keyed(value: Value, expiry: Option<int>)

  type Db = map<RedisKey, Keyed>

  /** A key whose time to live has run down to nothing is gone. */
  predicate Live(db: Db, k: RedisKey, now: int) {
    k in db && (db[k].expiry.Some? ==> now < db[k].expiry.value)
  }

  /** INCR: a missing key counts from zero and gets no expiry; a present one keeps its own. */
  function Incr(db: Db, k: RedisKey, now: int): (Db, nat) {
    if Live(db, k, now) && db[k].value.Number? then
      (db[k := Keyed(Number(db[k].value.n + 1), db[k].expiry)], db[k].value.n + 1)
    else (db[k := Keyed(Number(1), None)], 1)
  }

  function PExpire(db: Db, k: RedisKey, ttl: int, now: int): Db {
    if Live(db, k, now) then db[k := db[k].(expiry := Some(now + ttl))] else db
  }

  function Ttl(db: Db, k: RedisKey, now: int): int {
    if !Live(db, k, now) then -2 else if db[k].expiry.None? then -1 else db[k].expiry.value - now
  }

  // ---- the Redis store ----

  function RedisMiss(db: Db, key: string, window: int, now: int): (Db, nat) {
    var k := RedisKey(key, MissKey);
    var (after, n) := Incr(db, k, now);
    (if n == 1 then PExpire(after, k, window, now) else after, n)
  }

  function RedisBan(db: Db, key: string, reason: string, path: string, base: int, max: int, now: int): (Db, BanRecord) {
    var (counted, strikes) := Incr(db, RedisKey(key, StrikesKey), now);
    var len := Length(strikes, base, max);
    var kept := PExpire(counted, RedisKey(key, StrikesKey), len + max, now);
    var ban := BanRecord(key, reason, path, strikes, now, now + len);
    (kept[RedisKey(key, BanKey) := Keyed(Stored(ban), Some(now + len))] - {RedisKey(key, MissKey)}, ban)
  }

  function RedisUnban(db: Db, key: string, now: int): (Db, bool) {
    (db - {RedisKey(key, BanKey), RedisKey(key, StrikesKey), RedisKey(key, MissKey)},
      Live(db, RedisKey(key, BanKey), now))
  }

  function RedisBannedFor(db: Db, key: string, now: int): int {
    var d := Ttl(db, RedisKey(key, BanKey), now);
    if d < 0 then 0 else d
  }

  function RedisList(db: Db, now: int): set<BanRecord> {
    set k | k in db && k.kind.BanKey? && Live(db, k, now) && db[k].value.Stored? && now < db[k].value.ban.until ::
      db[k].value.ban
  }

  /** The bans in force under keys not in `keys`. */
  function BansOutside(db: Db, keys: set<RedisKey>, now: int): set<BanRecord> {
    set k | k in db && k.kind.BanKey? && k !in keys && Live(db, k, now) && db[k].value.Stored?
            && now < db[k].value.ban.until :: db[k].value.ban
  }

  class RedisStore {
    var db: Db

    constructor ()
      ensures db == map[]
    {
      db := map[];
    }

    /** `missScript`. */
    method Miss(key: string, window: int, now: int) returns (n: nat)
      modifies this
      ensures (db, n) == RedisMiss(old(db), key, window, now)
    {
      var k := RedisKey(key, MissKey);
      var after := Incr(db, k, now);
      db, n := after.0, after.1;
      if n == 1 {
        db := PExpire(db, k, window, now);
      }
    }

    /** `banScript`. */
    method Ban(key: string, reason: string, path: string, base: int, max: int, now: int) returns (ban: BanRecord)
      requires 0 < base <= 0x10_0000_0000_0000 && 0 < max <= 0x10_0000_0000_0000
      modifies this
      ensures (db, ban) == RedisBan(old(db), key, reason, path, base, max, now)
    {
      var counted := Incr(db, RedisKey(key, StrikesKey), now);
      db := counted.0;
      var strikes := counted.1;
      var len := ScriptLength(strikes, base, max);
      db := PExpire(db, RedisKey(key, StrikesKey), len + max, now);
      ban := BanRecord(key, reason, path, strikes, now, now + len);
      db := db[RedisKey(key, BanKey) := Keyed(Stored(ban), Some(now + len))];
      db := db - {RedisKey(key, MissKey)};
    }

    method Unban(key: string, now: int) returns (was: bool)
      modifies this
      ensures (db, was) == RedisUnban(old(db), key, now)
    {
      was := Live(db, RedisKey(key, BanKey), now);
      db := db - {RedisKey(key, BanKey)};
      db := db - {RedisKey(key, StrikesKey), RedisKey(key, MissKey)};
      assert db == old(db) - {RedisKey(key, BanKey), RedisKey(key, StrikesKey), RedisKey(key, MissKey)};
    }

    method BannedFor(key: string, now: int) returns (left: int)
      ensures left == RedisBannedFor(db, key, now)
    {
      left := Ttl(db, RedisKey(key, BanKey), now);
      if left < 0 {
        return 0;
      }
    }

    method List(now: int) returns (out: seq<BanRecord>)
      ensures Listed(out, RedisList(db, now))
    {
      out := [];
      var keys := set k | k in db && k.kind.BanKey?;
      while keys != {}
        invariant keys <= db.Keys && forall k | k in keys :: k.kind.BanKey?
        invariant Listed(out, BansOutside(db, keys, now))
        decreases keys
      {
        var k :| k in keys;
        if Live(db, k, now) && db[k].value.Stored? && now < db[k].value.ban.until {
          assert BansOutside(db, keys - {k}, now) == BansOutside(db, keys, now) + {db[k].value.ban};
          out := InsertBan(db[k].value.ban, out, BansOutside(db, keys, now));
        } else {
          assert BansOutside(db, keys - {k}, now) == BansOutside(db, keys, now);
        }
        keys := keys - {k};
      }
      assert BansOutside(db, {}, now) == RedisList(db, now);
    }
  }

  // ---- one machine ----

  function MemoryStep(m: Tables, op: Op): (Tables, Answer) {
    match op
    case Miss(key, window, now) => var (u, n) := MemoryMiss(m, key, window, now); (u, Count(n))
    case Strike(key, reason, path, base, max, now) =>
      var (u, ban) := MemoryBan(m, key, reason, path, base, max, now); (u, Banned(ban))
    case Unban(key, now) => var (u, was) := MemoryUnban(m, key, now); (u, Lifted(was))
    case BannedFor(key, now) => var (u, left) := MemoryBannedFor(m, key, now); (u, Left(left))
    case List(now) => (m, Bans(MemoryList(m, now)))
  }

  function RedisStep(db: Db, op: Op): (Db, Answer) {
    match op
    case Miss(key, window, now) => var (u, n) := RedisMiss(db, key, window, now); (u, Count(n))
    case Strike(key, reason, path, base, max, now) =>
      var (u, ban) := RedisBan(db, key, reason, path, base, max, now); (u, Banned(ban))
    case Unban(key, now) => var (u, was) := RedisUnban(db, key, now); (u, Lifted(was))
    case BannedFor(key, now) => (db, Left(RedisBannedFor(db, key, now)))
    case List(now) => (db, Bans(RedisList(db, now)))
  }

  /** The window each client's running count began under. */
  type Windows = map<string, int>

  function WindowOf(w: Windows, key: string): int {
    if key in w then w[key] else 0
  }

  /** This miss begins a count in the memory store. */
  predicate Begins(m: Tables, key: string, window: int, now: int) {
    key !in m.misses || now - m.misses[key].start >= window
  }

  function Begun(m: Tables, w: Windows, op: Op): Windows {
    if op.Miss? && Begins(m, op.key, op.window, op.now) then w[op.key := op.window] else w
  }

  /** The window given with a miss and the one its count began under say alike whether that
      count has run out. The memory store asks the one, Redis the other. */
  predicate WindowsAgree(m: Tables, w: Windows, op: Op) {
    op.Miss? && op.key in m.misses ==>
      (op.now - m.misses[op.key].start >= op.window <==> op.now - m.misses[op.key].start >= WindowOf(w, op.key))
  }

  /** What a store still remembers of a client: a count with the moment it lapses. */
  datatype Tally = Tally(n: nat, lapses: int)

  function MissTally(m: Tables, key: string, window: int, now: int): Option<Tally> {
    if key in m.misses && now - m.misses[key].start < window
    then Some(Tally(m.misses[key].count, m.misses[key].start + window)) else None
  }

  function StrikeTally(m: Tables, key: string, now: int): Option<Tally> {
    if key in m.strikes && now < m.strikes[key].expires
    then Some(Tally(m.strikes[key].count, m.strikes[key].expires)) else None
  }

  function BanNow(m: Tables, key: string, now: int): Option<BanRecord> {
    if key in m.bans && now < m.bans[key].until then Some(m.bans[key]) else None
  }

  function DbTally(db: Db, k: RedisKey, now: int): Option<Tally> {
    if Live(db, k, now) && db[k].expiry.Some? && db[k].value.Number?
    then Some(Tally(db[k].value.n, db[k].expiry.value)) else None
  }

  function DbBan(db: Db, key: string, now: int): Option<BanRecord> {
    var k := RedisKey(key, BanKey);
    if Live(db, k, now) && db[k].value.Stored? then Some(db[k].value.ban) else None
  }

  /** The stores remember the same of one client. */
  predicate Same(m: Tables, db: Db, w: Windows, now: int, key: string) {
    && MissTally(m, key, WindowOf(w, key), now) == DbTally(db, RedisKey(key, MissKey), now)
    && StrikeTally(m, key, now) == DbTally(db, RedisKey(key, StrikesKey), now)
    && BanNow(m, key, now) == DbBan(db, key, now)
  }

  /** Keys hold what their kind says and always expire, a ban when it ends; an expired count
      is never zero. */
  predicate EntryRight(k: RedisKey, e: Keyed) {
    && e.expiry.Some?
    && (k.kind.BanKey? ==> e.value.Stored? && e.value.ban.until == e.expiry.value && e.value.ban.client == k.client)
    && (!k.kind.BanKey? ==> e.value.Number? && e.value.n > 0)
  }

  ghost predicate Alike(m: Tables, db: Db, w: Windows, now: int) {
    && (forall key {:trigger Same(m, db, w, now, key)} :: Same(m, db, w, now, key))
    && (forall k {:trigger EntryRight(k, db[k])} | k in db :: EntryRight(k, db[k]))
    && (forall key | key in m.bans :: m.bans[key].client == key)
    && (forall key | key in m.misses :: m.misses[key].count > 0)
  }

  /** Time only lets things lapse, in both alike. */
  lemma StillAlike(m: Tables, db: Db, w: Windows, before: int, now: int)
    requires Alike(m, db, w, before) && before <= now
    ensures Alike(m, db, w, now)
  {
    forall key ensures Same(m, db, w, now, key) {
      SameLater(m, db, w, before, now, key);
    }
  }

  lemma SameLater(m: Tables, db: Db, w: Windows, before: int, now: int, key: string)
    requires Same(m, db, w, before, key) && before <= now
    requires forall k {:trigger EntryRight(k, db[k])} | k in db :: EntryRight(k, db[k])
    ensures Same(m, db, w, now, key)
  {
    var miss, strike, ban := RedisKey(key, MissKey), RedisKey(key, StrikesKey), RedisKey(key, BanKey);
    assert miss in db ==> EntryRight(miss, db[miss]);
    assert strike in db ==> EntryRight(strike, db[strike]);
    assert ban in db ==> EntryRight(ban, db[ban]);
  }

  /** What the configuration guarantees of a request to a store. */
  predicate Sound(op: Op) {
    (op.Strike? ==> op.base > 0 && op.max > 0) && (op.Miss? ==> op.window > 0)
  }

  /** A miss is counted alike if and only if the two windows agree on it. */
  lemma MissCountsExactly(m: Tables, db: Db, w: Windows, key: string, window: int, now: int)
    requires Alike(m, db, w, now) && window > 0
    ensures MemoryMiss(m, key, window, now).1 == RedisMiss(db, key, window, now).1
       <==> WindowsAgree(m, w, Miss(key, window, now))
  {
    var k := RedisKey(key, MissKey);
    assert k in db ==> EntryRight(k, db[k]);
    assert Same(m, db, w, now, key);
  }

  lemma MissAlike(m: Tables, db: Db, w: Windows, key: string, window: int, now: int)
    requires Alike(m, db, w, now) && window > 0 && WindowsAgree(m, w, Miss(key, window, now))
    ensures Alike(MemoryMiss(m, key, window, now).0, RedisMiss(db, key, window, now).0,
                  Begun(m, w, Miss(key, window, now)), now)
  {
    MissSame(m, db, w, key, window, now);
    var u, v := MemoryMiss(m, key, window, now).0, RedisMiss(db, key, window, now).0;
    var begun := Begun(m, w, Miss(key, window, now));
    forall x | x != key ensures Same(u, v, begun, now, x) {
      assert Same(m, db, w, now, x);
      OthersSame(m, u, db, v, w, begun, now, key, x);
    }
  }

  /** The client itself: the same count, running to the same time. */
  lemma MissSame(m: Tables, db: Db, w: Windows, key: string, window: int, now: int)
    requires Alike(m, db, w, now) && window > 0 && WindowsAgree(m, w, Miss(key, window, now))
    ensures var u, v := MemoryMiss(m, key, window, now).0, RedisMiss(db, key, window, now).0;
      && Same(u, v, Begun(m, w, Miss(key, window, now)), now, key)
      && (forall k {:trigger EntryRight(k, v[k])} | k in v :: EntryRight(k, v[k]))
  {
    var k := RedisKey(key, MissKey);
    assert k in db ==> EntryRight(k, db[k]);
    assert Same(m, db, w, now, key);
    var v := RedisMiss(db, key, window, now).0;
    assert v == db[k := v[k]] && EntryRight(k, v[k]);
  }

  lemma BanAlike(m: Tables, db: Db, w: Windows, key: string, reason: string, path: string, base: int, max: int,
                 now: int)
    requires Alike(m, db, w, now) && base > 0 && max > 0
    ensures var (u, a) := MemoryBan(m, key, reason, path, base, max, now);
      var (v, b) := RedisBan(db, key, reason, path, base, max, now);
      a == b && Alike(u, v, w, now)
  {
    BanSame(m, db, w, key, reason, path, base, max, now);
    var u, v := MemoryBan(m, key, reason, path, base, max, now).0, RedisBan(db, key, reason, path, base, max, now).0;
    forall x | x != key ensures Same(u, v, w, now, x) {
      assert Same(m, db, w, now, x);
      OthersSame(m, u, db, v, w, w, now, key, x);
    }
  }

  /** The banned client itself: same ban, same strikes, no misses. */
  lemma BanSame(m: Tables, db: Db, w: Windows, key: string, reason: string, path: string, base: int, max: int, now: int)
    requires Alike(m, db, w, now) && base > 0 && max > 0
    ensures var (u, a) := MemoryBan(m, key, reason, path, base, max, now);
      var (v, b) := RedisBan(db, key, reason, path, base, max, now);
      && a == b && Same(u, v, w, now, key)
      && (forall k {:trigger EntryRight(k, v[k])} | k in v :: EntryRight(k, v[k]))
  {
    var ban, strike, miss := RedisKey(key, BanKey), RedisKey(key, StrikesKey), RedisKey(key, MissKey);
    assert strike in db ==> EntryRight(strike, db[strike]);
    assert Same(m, db, w, now, key);
    var (u, a) := MemoryBan(m, key, reason, path, base, max, now);
    var (v, b) := RedisBan(db, key, reason, path, base, max, now);
    LengthPositive(a.strikes, base, max);
    assert EntryRight(ban, v[ban]) && EntryRight(strike, v[strike]) && miss !in v;
    assert v == db[strike := v[strike]][ban := v[ban]] - {miss};
  }

  /** What is written about one client says nothing of another. */
  lemma OthersSame(m: Tables, u: Tables, db: Db, v: Db, w: Windows, begun: Windows, now: int, key: string, x: string)
    requires Same(m, db, w, now, x) && x != key && WindowOf(begun, x) == WindowOf(w, x)
    requires u.misses - {key} == m.misses - {key} && u.bans - {key} == m.bans - {key}
    requires u.strikes - {key} == m.strikes - {key}
    requires forall k: RedisKey | k.client == x :: (k in v <==> k in db) && (k in db ==> v[k] == db[k])
    ensures Same(u, v, begun, now, x)
  {
    assert x in u.misses <==> x in (u.misses - {key});
    assert x in u.bans <==> x in (u.bans - {key});
    assert x in u.strikes <==> x in (u.strikes - {key});
    assert x in m.misses <==> x in (m.misses - {key});
    assert x in m.bans <==> x in (m.bans - {key});
    assert x in m.strikes <==> x in (m.strikes - {key});
    assert x in u.misses ==> u.misses[x] == (u.misses - {key})[x] == m.misses[x];
    assert x in u.bans ==> u.bans[x] == (u.bans - {key})[x] == m.bans[x];
    assert x in u.strikes ==> u.strikes[x] == (u.strikes - {key})[x] == m.strikes[x];
  }

  lemma LengthPositive(strikes: nat, base: int, max: int)
    requires base > 0 && max > 0
    ensures 0 < Length(strikes, base, max) <= max
  {
  }

  lemma UnbanAlike(m: Tables, db: Db, w: Windows, key: string, now: int)
    requires Alike(m, db, w, now)
    ensures var (u, a) := MemoryUnban(m, key, now);
      var (v, b) := RedisUnban(db, key, now);
      a == b && Alike(u, v, w, now)
  {
    var ban := RedisKey(key, BanKey);
    assert ban in db ==> EntryRight(ban, db[ban]);
    assert Same(m, db, w, now, key);
    var u, v := MemoryUnban(m, key, now).0, RedisUnban(db, key, now).0;
    forall x ensures Same(u, v, w, now, x) {
      assert Same(m, db, w, now, x);
    }
  }

  lemma BannedForAlike(m: Tables, db: Db, w: Windows, key: string, now: int)
    requires Alike(m, db, w, now)
    ensures var (u, a) := MemoryBannedFor(m, key, now);
      a == RedisBannedFor(db, key, now) && Alike(u, db, w, now)
  {
    var ban := RedisKey(key, BanKey);
    assert ban in db ==> EntryRight(ban, db[ban]);
    assert Same(m, db, w, now, key);
    var u := MemoryBannedFor(m, key, now).0;
    forall x ensures Same(u, db, w, now, x) {
      assert Same(m, db, w, now, x);
    }
  }

  lemma ListAlike(m: Tables, db: Db, w: Windows, now: int)
    requires Alike(m, db, w, now)
    ensures MemoryList(m, now) == RedisList(db, now)
  {
    forall ban ensures ban in MemoryList(m, now) <==> ban in RedisList(db, now) {
      if ban in MemoryList(m, now) {
        var key :| key in m.bans && now < m.bans[key].until && m.bans[key] == ban;
        assert Same(m, db, w, now, key);
        assert RedisKey(key, BanKey) in db;
      }
      if ban in RedisList(db, now) {
        var k :| k in db && k.kind.BanKey? && Live(db, k, now) && db[k].value.Stored?
                 && now < db[k].value.ban.until && db[k].value.ban == ban;
        assert k == RedisKey(k.client, BanKey) && Same(m, db, w, now, k.client);
        assert k.client in m.bans && m.bans[k.client] == ban;
      }
    }
  }

  /** One request, one clock: the answers are the same if and only if, on a miss, the windows
      agree; and then the stores still remember the same. */
  lemma StepAlike(m: Tables, db: Db, w: Windows, op: Op)
    requires Alike(m, db, w, op.now) && Sound(op)
    ensures MemoryStep(m, op).1 == RedisStep(db, op).1 <==> WindowsAgree(m, w, op)
    ensures WindowsAgree(m, w, op) ==> Alike(MemoryStep(m, op).0, RedisStep(db, op).0, Begun(m, w, op), op.now)
  {
    match op {
      case Miss(key, window, now) =>
        MissCountsExactly(m, db, w, key, window, now);
        if WindowsAgree(m, w, op) {
          MissAlike(m, db, w, key, window, now);
        }
      case Strike(key, reason, path, base, max, now) => BanAlike(m, db, w, key, reason, path, base, max, now);
      case Unban(key, now) => UnbanAlike(m, db, w, key, now);
      case BannedFor(key, now) => BannedForAlike(m, db, w, key, now);
      case List(now) => ListAlike(m, db, w, now);
    }
  }

  // ---- whole runs ----

  function MemoryRun(ops: seq<Op>): (Tables, seq<Answer>) {
    if ops == [] then (Tables(map[], map[], map[]), [])
    else
      var (m, answers) := MemoryRun(ops[..|ops| - 1]);
      var (u, a) := MemoryStep(m, ops[|ops| - 1]);
      (u, answers + [a])
  }

  function RedisRun(ops: seq<Op>): (Db, seq<Answer>) {
    if ops == [] then (map[], [])
    else
      var (db, answers) := RedisRun(ops[..|ops| - 1]);
      var (u, a) := RedisStep(db, ops[|ops| - 1]);
      (u, answers + [a])
  }

  /** The windows the running counts began under, as the memory store counts. */
  function BegunBy(ops: seq<Op>): Windows {
    if ops == [] then map[]
    else Begun(MemoryRun(ops[..|ops| - 1]).0, BegunBy(ops[..|ops| - 1]), ops[|ops| - 1])
  }

  /** At every miss of the run the windows agree. */
  predicate AllAgree(ops: seq<Op>) {
    ops == [] || (AllAgree(ops[..|ops| - 1])
                  && WindowsAgree(MemoryRun(ops[..|ops| - 1]).0, BegunBy(ops[..|ops| - 1]), ops[|ops| - 1]))
  }

  predicate InOrder(ops: seq<Op>) {
    (forall i, j | 0 <= i < j < |ops| :: ops[i].now <= ops[j].now) && forall op | op in ops :: Sound(op)
  }

  /** The two stores cannot be told apart exactly while the windows agree: any requests in
      clock order get equal answers if and only if no miss comes with a window that decides
      otherwise than the one its count began under. */
  lemma {:induction false} StoresAgreeExactly(ops: seq<Op>)
    requires InOrder(ops)
    ensures MemoryRun(ops).1 == RedisRun(ops).1 <==> AllAgree(ops)
    ensures AllAgree(ops) && ops != [] ==>
      Alike(MemoryRun(ops).0, RedisRun(ops).0, BegunBy(ops), ops[|ops| - 1].now)
  {
    if ops != [] {
      var earlier, op := ops[..|ops| - 1], ops[|ops| - 1];
      StoresAgreeExactly(earlier);
      var (m, a) := MemoryRun(earlier);
      var (db, b) := RedisRun(earlier);
      SameLengths(earlier);
      LastAnswers(a, MemoryStep(m, op).1, b, RedisStep(db, op).1);
      if AllAgree(earlier) {
        if earlier != [] {
          StillAlike(m, db, BegunBy(earlier), earlier[|earlier| - 1].now, op.now);
        }
        StepAlike(m, db, BegunBy(earlier), op);
      }
    }
  }

  lemma {:induction false} SameLengths(ops: seq<Op>)
    ensures |MemoryRun(ops).1| == |RedisRun(ops).1| == |ops|
  {
    if ops != [] {
      SameLengths(ops[..|ops| - 1]);
    }
  }

  lemma LastAnswers(a: seq<Answer>, x: Answer, b: seq<Answer>, y: Answer)
    requires |a| == |b|
    ensures a + [x] == b + [y] <==> a == b && x == y
  {
    assert (a + [x])[|a|] == x && (b + [y])[|b|] == y;
    assert (a + [x])[..|a|] == a && (b + [y])[..|b|] == b;
  }

  /** With one window for every miss the stores cannot be told apart at all. */
  lemma StoresBisimilar(ops: seq<Op>, window: int)
    requires InOrder(ops) && forall op | op in ops && op.Miss? :: op.window == window
    ensures MemoryRun(ops).1 == RedisRun(ops).1
  {
    OneWindowAgrees(ops, window);
    StoresAgreeExactly(ops);
  }

  lemma {:induction false} OneWindowAgrees(ops: seq<Op>, window: int)
    requires forall op | op in ops && op.Miss? :: op.window == window
    ensures AllAgree(ops)
    ensures forall key | key in MemoryRun(ops).0.misses :: WindowOf(BegunBy(ops), key) == window
  {
    if ops != [] {
      assert ops[|ops| - 1] in ops;
      OneWindowAgrees(ops[..|ops| - 1], window);
    }
  }

  /** Windows of 10 and then 3 around a count five old: the memory store begins anew, Redis
      counts on. */
  lemma ChangedWindowMiscounts()
    ensures var (m, one) := MemoryMiss(Tables(map[], map[], map[]), "c", 10, 0);
      var (db, uno) := RedisMiss(map[], "c", 10, 0);
      one == uno && MemoryMiss(m, "c", 3, 5).1 == 1 && RedisMiss(db, "c", 3, 5).1 == 2
  {
  }

  // ---- escalation ----

  /** Bans of one client so far, if nobody lifted one. */
  function Offences(ops: seq<Op>, key: string): nat {
    if ops == [] then 0
    else Offences(ops[..|ops| - 1], key) + if ops[|ops| - 1].Strike? && ops[|ops| - 1].key == key then 1 else 0
  }

  function LastOffence(ops: seq<Op>, key: string): int {
    if ops == [] then 0
    else if ops[|ops| - 1].Strike? && ops[|ops| - 1].key == key then ops[|ops| - 1].now
    else LastOffence(ops[..|ops| - 1], key)
  }

  /** The last ban answered for a client, unless it was lifted since. */
  function LastBan(ops: seq<Op>, key: string): Option<BanRecord> {
    if ops == [] then None
    else
      var earlier, op := ops[..|ops| - 1], ops[|ops| - 1];
      if op.Strike? && op.key == key then
        var a := MemoryStep(MemoryRun(earlier).0, op).1;
        if a.Banned? then Some(a.ban) else None
      else if op.Unban? && op.key == key then None
      else LastBan(earlier, key)
  }

  /** No ban of the client is lifted, and each comes while the one before is remembered. */
  predicate Persists(ops: seq<Op>, key: string, base: int, max: int) {
    ops == [] ||
    (var earlier, op := ops[..|ops| - 1], ops[|ops| - 1];
     && Persists(earlier, key, base, max) && !(op.Unban? && op.key == key)
     && (op.Strike? && op.key == key ==>
           op.base == base && op.max == max
           && (LastBan(earlier, key).Some? ==> op.now < LastBan(earlier, key).value.until + max)))
  }

  /** The k-th ban in a row is the k-th strike and lasts min(base * 2^(k-1), max), whatever
      else is asked of the store in between. */
  lemma {:induction false} KthBan(ops: seq<Op>, key: string, base: int, max: int)
    requires Persists(ops, key, base, max)
    ensures var m, k, last := MemoryRun(ops).0, Offences(ops, key), LastBan(ops, key);
      if k == 0 then key !in m.strikes && last == None
      else key in m.strikes && last.Some? && m.strikes[key] == Strikes(k, last.value.until + max)
           && last.value.strikes == k && last.value.since == LastOffence(ops, key)
           && last.value.until == last.value.since + Capped(base * Pow2(k - 1), max)
    ensures ops != [] && ops[|ops| - 1].Strike? && ops[|ops| - 1].key == key ==>
      var k, a := Offences(ops, key), MemoryStep(MemoryRun(ops[..|ops| - 1]).0, ops[|ops| - 1]).1;
      a.Banned? && a.ban.strikes == k > 0 && a.ban.since == ops[|ops| - 1].now
      && a.ban.until == a.ban.since + Capped(base * Pow2(k - 1), max)
  {
    if ops != [] {
      KthBan(ops[..|ops| - 1], key, base, max);
    }
  }

  // ---- one ban after another ----

  /** Every ban of the client is asked for with these settings. */
  predicate Rated(ops: seq<Op>, key: string, base: int, max: int) {
    forall op | op in ops && op.Strike? && op.key == key :: op.base == base && op.max == max
  }

  /** A first ban has the base length; one strike more doubles it, up to the cap. */
  lemma LengthDoubles(strikes: nat, base: int, max: int)
    requires strikes > 0 && base > 0 && max > 0
    ensures Length(1, base, max) == if base < max then base else max
    ensures var twice := 2 * Length(strikes, base, max);
            Length(strikes + 1, base, max) == if twice < max then twice else max
  {
    assert Pow2(0) == 1;
    Doubled(base, Pow2(strikes - 1));
  }

  /** The strike table holds the last ban's count until the cap has passed after its end. */
  lemma {:induction false} StrikesHeld(ops: seq<Op>, key: string, base: int, max: int)
    requires Rated(ops, key, base, max)
    ensures var m, last := MemoryRun(ops).0, LastBan(ops, key);
      && (key in m.strikes <==> last.Some?)
      && (last.Some? ==>
            && m.strikes[key] == Strikes(last.value.strikes, last.value.until + max) && last.value.strikes > 0
            && last.value.until == last.value.since + Length(last.value.strikes, base, max))
  {
    if ops != [] {
      assert forall op | op in ops[..|ops| - 1] :: op in ops;
      assert ops[|ops| - 1] in ops;
      StrikesHeld(ops[..|ops| - 1], key, base, max);
    }
  }

  /** Over any run: a ban that comes while the one before is remembered, which is until the cap
      has passed after its end, lasts twice as long, up to the cap; any other is a first ban. */
  lemma BanFollows(ops: seq<Op>, key: string, reason: string, path: string, base: int, max: int, now: int)
    requires base > 0 && max > 0 && Rated(ops, key, base, max)
    ensures var a, last := MemoryStep(MemoryRun(ops).0, Strike(key, reason, path, base, max, now)).1, LastBan(ops, key);
      && a.Banned? && a.ban.client == key && a.ban.reason == reason && a.ban.path == path && a.ban.since == now
      && if last.Some? && now < last.value.until + max then
           var twice := 2 * (last.value.until - last.value.since);
           a.ban.strikes == last.value.strikes + 1 && a.ban.until - now == if twice < max then twice else max
         else
           a.ban.strikes == 1 && a.ban.until - now == if base < max then base else max
  {
    StrikesHeld(ops, key, base, max);
    var last := LastBan(ops, key);
    LengthDoubles(if last.Some? then last.value.strikes else 1, base, max);
  }

  /** The ban table holds the last ban, at least until it is over. */
  lemma {:induction false} BansHeld(ops: seq<Op>, key: string)
    requires InOrder(ops)
    ensures var m, last := MemoryRun(ops).0, LastBan(ops, key);
      && (key in m.bans ==> last == Some(m.bans[key]))
      && (key !in m.bans && last.Some? ==> ops != [] && last.value.until <= ops[|ops| - 1].now)
  {
    if ops != [] {
      BansHeld(ops[..|ops| - 1], key);
    }
  }

  /** A client is banned for what is left of its last ban, unless that was lifted. */
  lemma BannedExactly(ops: seq<Op>, key: string, now: int)
    requires InOrder(ops) && (ops != [] ==> ops[|ops| - 1].now <= now)
    ensures var last := LastBan(ops, key);
      MemoryStep(MemoryRun(ops).0, BannedFor(key, now)).1
      == Left(if last.Some? && now < last.value.until then last.value.until - now else 0)
  {
    BansHeld(ops, key);
  }

  /** And those bans are what is listed. */
  lemma ListedExactly(ops: seq<Op>, b: BanRecord, now: int)
    requires InOrder(ops) && (ops != [] ==> ops[|ops| - 1].now <= now)
    ensures MemoryStep(MemoryRun(ops).0, List(now)).1.Bans?
    ensures b in MemoryStep(MemoryRun(ops).0, List(now)).1.bans <==>
            exists key :: LastBan(ops, key) == Some(b) && now < b.until
  {
    var m := MemoryRun(ops).0;
    if b in MemoryList(m, now) {
      var key :| key in m.bans && now < m.bans[key].until && m.bans[key] == b;
      BansHeld(ops, key);
    }
    if key :| LastBan(ops, key) == Some(b) && now < b.until {
      BansHeld(ops, key);
    }
  }

  /** A ban, or its lifting, clears the client's misses: the next one is the first again. */
  lemma MissesCleared(ops: seq<Op>, key: string, window: int, now: int)
    requires ops != [] && (ops[|ops| - 1].Strike? || ops[|ops| - 1].Unban?) && ops[|ops| - 1].key == key
    ensures MemoryStep(MemoryRun(ops).0, Miss(key, window, now)).1 == Count(1)
  {
  }

  // ---- the guard over the memory store ----

  predicate BlockedAt(m: Tables, key: string, t: int) {
    MemoryBannedFor(m, key, t).1 > 0
  }

  class Guard {
    const store: MemoryStore
    const maxMisses: int
    const window: int
    const ban: int
    const maxBan: int

    constructor (s: MemoryStore, misses: int, win: int, first: int, most: int)
      ensures store == s && maxMisses == misses && window == win && ban == first && maxBan == most
    {
      store, maxMisses, window, ban, maxBan := s, misses, win, first, most;
    }

    /** `Miss`, the key already normalised: nothing for a client the guard ignores; otherwise
        a ban exactly for a trap path or the miss that reaches the threshold, in force from
        now for the length its strikes earn and not a moment longer. */
    method Miss(key: string, path: string, isTrap: bool, now: int) returns (b: Option<BanRecord>)
      requires 0 < ban <= 0x4000_0000_0000_0000 && 0 < maxBan <= 0x4000_0000_0000_0000
      modifies store
      ensures key == "" ==> b == None && store.View() == old(store.View())
      ensures key != "" ==>
        (b.Some? <==> isTrap || MemoryMiss(old(store.View()), key, window, now).1 >= maxMisses)
      ensures key != "" && b.None? ==> store.View() == MemoryMiss(old(store.View()), key, window, now).0
      ensures b.Some? ==>
        var before := if isTrap then old(store.View()) else MemoryMiss(old(store.View()), key, window, now).0;
        (store.View(), b.value) == MemoryBan(before, key, b.value.reason, path, ban, maxBan, now)
      ensures b.Some? ==> b.value.reason == (if isTrap then "trap" else "threshold") && b.value.path == path
      ensures b.Some? ==> key !in store.misses && forall t | now <= t ::
        b.value.strikes > 0 && (BlockedAt(store.View(), key, t) <==>
          t < now + Capped(ban * Pow2(b.value.strikes - 1), maxBan))
      ensures forall other, t | other != key ::
        BlockedAt(store.View(), other, t) <==> BlockedAt(old(store.View()), other, t)
    {
      if key == "" {
        return None;
      }
      var reason := "trap";
      if !isTrap {
        var n := store.Miss(key, window, now);
        if n < maxMisses {
          return None;
        }
        reason := "threshold";
      }
      var banned := store.Ban(key, reason, path, ban, maxBan, now);
      b := Some(banned);
    }

    /** `Blocked`. */
    method Blocked(key: string, now: int) returns (left: int, blocked: bool)
      modifies store
      ensures key == "" ==> left == 0 && !blocked && store.View() == old(store.View())
      ensures key != "" ==> (store.View(), left) == MemoryBannedFor(old(store.View()), key, now)
      ensures blocked <==> left > 0
    {
      if key == "" {
        return 0, false;
      }
      left := store.BannedFor(key, now);
      blocked := left > 0;
    }
  }

  /** The table after misses of one client at these times. */
  function AfterMisses(m: Tables, key: string, window: int, times: seq<int>): Tables {
    if times == [] then m
    else MemoryMiss(AfterMisses(m, key, window, times[..|times| - 1]), key, window, times[|times| - 1]).0
  }

  /** Within one window of the first, the n-th miss is counted as the n-th. */
  lemma {:induction false} MissesAddUp(m: Tables, key: string, window: int, times: seq<int>)
    requires times != [] && window > 0 && (key in m.misses ==> times[0] - m.misses[key].start >= window)
    requires forall i | 0 <= i < |times| :: times[0] <= times[i] < times[0] + window
    ensures var u := AfterMisses(m, key, window, times);
      key in u.misses && u.misses[key] == MissWindow(times[0], |times|)
  {
    if |times| == 1 {
      assert times[..0] == [];
    } else {
      MissesAddUp(m, key, window, times[..|times| - 1]);
    }
  }
}

/** Backing up the keys under one Redis prefix and restoring them under another. */
module RedisBackup {
  import opened Wrappers

  // A stored value; `expiresAt` is None for a key that does not expire.
  datatype Value = Value(dump: string, expiresAt: Option<int>)

  type Database = map<string, Value>

  datatype Record = Record(key: string, ttlMs: int, dump: string)

  datatype File = File(prefix: string, createdAt: int, records: seq<Record>)

  // What the backup reads about one scanned key: first its dump, None when the key has gone, then its
  // PTTL, -1 for a key without expiry and -2 for a key that has gone; and when it reads them.
  datatype Reading = Reading(key: string, dump: Option<string>, dumpAt: int, pttl: int, ttlAt: int)

  datatype Error = InvalidHeader | InvalidKey | InvalidRecord | CountMismatch

  function Max(a: int, b: int): int { if a >= b then a else b }

  predicate Under(key: string, prefix: string) {
    prefix + ":" <= key
  }

  function Rename(key: string, source: string, target: string): string
    requires Under(key, source)
  {
    target + key[|source|..]
  }

  // ---------- backup ----------

  /** The readings of keys that were still there. */
  function Dumped(readings: seq<Reading>): (dumped: seq<Reading>)
    ensures forall r :: r in dumped <==> r in readings && r.dump.Some?
  {
    if readings == [] then []
    else
      var before, r := Dumped(readings[..|readings| - 1]), readings[|readings| - 1];
      assert readings == readings[..|readings| - 1] + [r];
      if r.dump.Some? then before + [r] else before
  }

  function RecordOf(r: Reading): Record
    requires r.dump.Some?
  {
    Record(r.key, Max(0, r.pttl), r.dump.value)
  }

  function RecordsOf(readings: seq<Reading>): (records: seq<Record>)
    ensures |records| == |Dumped(readings)|
    ensures forall i :: 0 <= i < |records| ==> Dumped(readings)[i].dump.Some? && records[i] == RecordOf(Dumped(readings)[i])
  {
    var dumped := Dumped(readings);
    assert forall i :: 0 <= i < |dumped| ==> dumped[i] in dumped;
    seq(|dumped|, i requires 0 <= i < |dumped| => RecordOf(dumped[i]))
  }

  method WriteRedisBackup(prefix: string, createdAt: int, readings: seq<Reading>) returns (file: File, written: nat)
    ensures file == File(prefix, createdAt, RecordsOf(readings))
    ensures written == |file.records|
  {
    var records: seq<Record> := [];
    written := 0;
    for i := 0 to |readings|
      invariant records == RecordsOf(readings[..i]) && written == |records|
    {
      assert readings[..i + 1][..i] == readings[..i];
      if readings[i].dump.Some? {
        records := records + [RecordOf(readings[i])];
        written := written + 1;
      }
    }
    assert readings[..|readings|] == readings;
    file := File(prefix, createdAt, records);
  }

  // ---------- reading a backup back ----------

  ghost predicate ValidRecords(records: seq<Record>, prefix: string) {
    && (forall i :: 0 <= i < |records| ==> Under(records[i].key, prefix) && records[i].ttlMs >= 0)
    && (forall i, j :: 0 <= i < j < |records| ==> records[i].key != records[j].key)
  }

  /** Checks the records in order, as the restore will; counts them when all are in order. */
  method ValidateRedisBackup(file: File, expectedPrefix: string) returns (count: Result<nat, Error>)
    ensures count.Ok? <==> file.prefix == expectedPrefix && ValidRecords(file.records, expectedPrefix)
    ensures count.Ok? ==> count.value == |file.records|
  {
    if file.prefix != expectedPrefix { return Err(InvalidHeader); }
    var observed: set<string> := {};
    for i := 0 to |file.records|
      invariant ValidRecords(file.records[..i], expectedPrefix)
      invariant forall k :: k in observed <==> exists j :: 0 <= j < i && file.records[j].key == k
    {
      var r := file.records[i];
      if !Under(r.key, expectedPrefix) || r.key in observed { return Err(InvalidKey); }
      if r.ttlMs < 0 { return Err(InvalidRecord); }
      observed := observed + {r.key};
    }
    assert file.records[..|file.records|] == file.records;
    return Ok(|file.records|);
  }

  // ---------- restore ----------

  /** The expiry a record is restored with. */
  function ExpiryOf(createdAt: int, r: Record): Option<int> {
    if r.ttlMs == 0 then None else Some(createdAt + r.ttlMs)
  }

  predicate Expired(createdAt: int, r: Record, now: int) {
    r.ttlMs > 0 && createdAt + r.ttlMs <= now
  }

  /** The database after restoring these records at these moments. */
  function Restored(
    db: Database, createdAt: int, records: seq<Record>, source: string, target: string, clock: nat -> int): Database
    requires forall i :: 0 <= i < |records| ==> Under(records[i].key, source)
  {
    if records == [] then db
    else
      var n := |records| - 1;
      var before := Restored(db, createdAt, records[..n], source, target, clock);
      var r := records[n];
      if Expired(createdAt, r, clock(n)) then before
      else before[Rename(r.key, source, target) := Value(r.dump, ExpiryOf(createdAt, r))]
  }

  function ExpiredCount(createdAt: int, records: seq<Record>, clock: nat -> int): nat {
    if records == [] then 0
    else
      var n := |records| - 1;
      ExpiredCount(createdAt, records[..n], clock) + if Expired(createdAt, records[n], clock(n)) then 1 else 0
  }

  lemma StartRestored(db: Database, createdAt: int, source: string, target: string, clock: nat -> int)
    ensures Restored(db, createdAt, [], source, target, clock) == db && ExpiredCount(createdAt, [], clock) == 0
  {
  }

  lemma OneMoreRecord(
    db: Database, createdAt: int, records: seq<Record>, source: string, target: string, clock: nat -> int, i: nat)
    requires i < |records| && forall j :: 0 <= j <= i ==> Under(records[j].key, source)
    ensures var before, r := Restored(db, createdAt, records[..i], source, target, clock), records[i];
            Restored(db, createdAt, records[..i + 1], source, target, clock) ==
              if Expired(createdAt, r, clock(i)) then before
              else before[Rename(r.key, source, target) := Value(r.dump, ExpiryOf(createdAt, r))]
    ensures ExpiredCount(createdAt, records[..i + 1], clock)
         == ExpiredCount(createdAt, records[..i], clock) + if Expired(createdAt, records[i], clock(i)) then 1 else 0
  {
    assert records[..i + 1][..i] == records[..i];
  }

  function Cleared(db: Database, prefix: string): Database {
    map k | k in db && !Under(k, prefix) :: db[k]
  }

  class Redis {
    var db: Database

    constructor (db: Database)
      ensures this.db == db
    {
      this.db := db;
    }

    /** RESTORE ... REPLACE at this moment: a time to live of zero means no expiry. */
    method Restore(key: string, ttlMs: nat, dump: string, now: int)
      modifies this
      ensures db == old(db)[key := Value(dump, if ttlMs == 0 then None else Some(now + ttlMs))]
    {
      db := db[key := Value(dump, if ttlMs == 0 then None else Some(now + ttlMs))];
    }

    /** `clock(i)` is the time at which record i is looked at and restored. */
    method RestoreBackup(file: File, source: string, target: string, clock: nat -> int)
      returns (counts: Result<(nat, nat), Error>)
      modifies this
      ensures counts.Ok? <==> file.prefix == source && ValidRecords(file.records, source)
      ensures counts.Ok? ==>
                && db == Restored(Cleared(old(db), target), file.createdAt, file.records, source, target, clock)
                && counts.value.1 == ExpiredCount(file.createdAt, file.records, clock)
                && counts.value.0 + counts.value.1 == |file.records|
    {
      hide Restored, ExpiredCount;
      ghost var cleared := Cleared(db, target);
      StartRestored(cleared, file.createdAt, source, target, clock);
      db := Cleared(db, target);
      if file.prefix != source { return Err(InvalidHeader); }
      var restored, expiredSkipped := 0, 0;
      var observed: set<string> := {};
      for i := 0 to |file.records|
        invariant ValidRecords(file.records[..i], source)
        invariant forall k :: k in observed <==> exists j :: 0 <= j < i && file.records[j].key == k
        invariant db == Restored(cleared, file.createdAt, file.records[..i], source, target, clock)
        invariant expiredSkipped == ExpiredCount(file.createdAt, file.records[..i], clock)
        invariant restored + expiredSkipped == i
      {
        var r := file.records[i];
        if !Under(r.key, source) || r.key in observed { return Err(InvalidKey); }
        if r.ttlMs < 0 { return Err(InvalidRecord); }
        observed := observed + {r.key};
        OneMoreRecord(cleared, file.createdAt, file.records, source, target, clock, i);
        var ttlMs := if r.ttlMs == 0 then 0 else Max(0, file.createdAt + r.ttlMs - clock(i));
        if r.ttlMs > 0 && ttlMs == 0 {
          expiredSkipped := expiredSkipped + 1;
        } else {
          Restore(Rename(r.key, source, target), ttlMs, r.dump, clock(i));
          restored := restored + 1;
        }
      }
      assert file.records[..|file.records|] == file.records;
      return Ok((restored, expiredSkipped));
    }

    /** The checks around a restore: the archive is read through and counted against the manifest before
    the target is touched, and what was restored and skipped is counted against it again.  An archive
    that is refused leaves the target as it was; one that is accepted always passes the last gate. */
    method RestoreArchive(file: File, keyCount: nat, source: string, target: string, clock: nat -> int)
      returns (counts: Result<(nat, nat), Error>)
      modifies this
      ensures counts.Ok? <==> file.prefix == source && ValidRecords(file.records, source) && |file.records| == keyCount
      ensures counts.Err? ==> db == old(db)
      ensures counts.Ok? ==>
                && db == Restored(Cleared(old(db), target), file.createdAt, file.records, source, target, clock)
                && counts.value.0 + counts.value.1 == keyCount
    {
      var validated := ValidateRedisBackup(file, source);
      if validated.Err? { return Err(validated.error); }
      if validated.value != keyCount { return Err(CountMismatch); }
      counts := RestoreBackup(file, source, target, clock);
    }
  }

  // ---------- what a restore leaves ----------

  lemma RenameIsInjective(a: string, b: string, source: string, target: string)
    requires Under(a, source) && Under(b, source) && Rename(a, source, target) == Rename(b, source, target)
    ensures a == b
  {
    assert a[|source|..] == Rename(a, source, target)[|target|..];
    assert b[|source|..] == Rename(b, source, target)[|target|..];
    assert a == a[..|source|] + a[|source|..] && a[..|source|] == source by { assert (source + ":")[..|source|] == source; }
    assert b == b[..|source|] + b[|source|..] && b[..|source|] == source;
  }

  /** The target prefix takes the place of the source prefix, and the rest of the key stays. */
  lemma RenameReplacesThePrefix(rest: string, source: string, target: string)
    ensures Under(source + ":" + rest, source)
    ensures Rename(source + ":" + rest, source, target) == target + ":" + rest
  {
    var key := source + ":" + rest;
    assert key[..|source + ":"|] == source + ":";
    assert key[|source|..] == ":" + rest;
  }

  lemma RenameMoves(key: string, source: string, target: string)
    requires Under(key, source)
    ensures Under(Rename(key, source, target), target)
  {
    assert key[|source|] == (source + ":")[|source|];
    assert Rename(key, source, target)[..|target| + 1] == target + ":";
  }

  /** Keys outside the target prefix are untouched. */
  lemma {:induction false} RestoredOutside(
    db: Database, createdAt: int, records: seq<Record>, source: string, target: string, clock: nat -> int, key: string)
    requires (forall i :: 0 <= i < |records| ==> Under(records[i].key, source)) && !Under(key, target)
    ensures var after := Restored(db, createdAt, records, source, target, clock);
            (key in after <==> key in db) && (key in db ==> after[key] == db[key])
  {
    if records != [] {
      var n := |records| - 1;
      RestoredOutside(db, createdAt, records[..n], source, target, clock, key);
      RenameMoves(records[n].key, source, target);
    }
  }

  /** A key that no record is renamed to is as it was before. */
  lemma {:induction false} RestoredElsewhere(
    db: Database, createdAt: int, records: seq<Record>, source: string, target: string, clock: nat -> int, key: string)
    requires forall i :: 0 <= i < |records| ==> Under(records[i].key, source) && Rename(records[i].key, source, target) != key
    ensures var after := Restored(db, createdAt, records, source, target, clock);
            (key in after <==> key in db) && (key in db ==> after[key] == db[key])
  {
    if records != [] {
      RestoredElsewhere(db, createdAt, records[..|records| - 1], source, target, clock, key);
    }
  }

  /** Record i ends up under its new name with its own dump and expiry, unless it had expired. */
  predicate Lands(db: Database, createdAt: int, r: Record, source: string, target: string, now: int)
    requires Under(r.key, source)
  {
    var key := Rename(r.key, source, target);
    if Expired(createdAt, r, now) then key !in db
    else key in db && db[key] == Value(r.dump, ExpiryOf(createdAt, r))
  }

  lemma {:induction false} RestoredRecordLands(
    db: Database, createdAt: int, records: seq<Record>, source: string, target: string, clock: nat -> int, i: nat)
    requires ValidRecords(records, source) && i < |records|
    requires forall k :: k in db ==> !Under(k, target)
    ensures Lands(Restored(db, createdAt, records, source, target, clock), createdAt, records[i], source, target, clock(i))
  {
    var n := |records| - 1;
    var init, key := records[..n], Rename(records[i].key, source, target);
    forall j | 0 <= j < |records| && j != i ensures Rename(records[j].key, source, target) != key {
      if Rename(records[j].key, source, target) == key { RenameIsInjective(records[j].key, records[i].key, source, target); }
    }
    if i < n {
      assert ValidRecords(init, source) && init[i] == records[i];
      RestoredRecordLands(db, createdAt, init, source, target, clock, i);
    } else {
      RestoredElsewhere(db, createdAt, init, source, target, clock, key);
      RenameMoves(records[i].key, source, target);
    }
  }

  /** After a restore, the keys under the target prefix are exactly the unexpired records, renamed
  without collision, each with its dump and with its time to live counted from the backup's creation;
  everything else is as it was. */
  lemma RestoreLeavesTheBackup(
    db: Database, createdAt: int, records: seq<Record>, source: string, target: string, clock: nat -> int)
    requires ValidRecords(records, source)
    ensures var after := Restored(Cleared(db, target), createdAt, records, source, target, clock);
            && (forall i :: 0 <= i < |records| ==> Lands(after, createdAt, records[i], source, target, clock(i)))
            && (forall k :: k in after && Under(k, target) ==>
                  exists i :: 0 <= i < |records| && k == Rename(records[i].key, source, target))
            && (forall k :: !Under(k, target) ==> (k in after <==> k in db) && (k in db ==> after[k] == db[k]))
            && (forall i, j :: 0 <= i < j < |records| ==>
                  Rename(records[i].key, source, target) != Rename(records[j].key, source, target))
  {
    var cleared := Cleared(db, target);
    var after := Restored(cleared, createdAt, records, source, target, clock);
    forall i | 0 <= i < |records| ensures Lands(after, createdAt, records[i], source, target, clock(i)) {
      RestoredRecordLands(cleared, createdAt, records, source, target, clock, i);
    }
    forall k | k in after && Under(k, target)
      ensures exists i :: 0 <= i < |records| && k == Rename(records[i].key, source, target)
    {
      if forall i :: 0 <= i < |records| ==> Rename(records[i].key, source, target) != k {
        RestoredElsewhere(cleared, createdAt, records, source, target, clock, k);
      }
    }
    forall k | !Under(k, target) ensures (k in after <==> k in db) && (k in db ==> after[k] == db[k]) {
      RestoredOutside(cleared, createdAt, records, source, target, clock, k);
    }
    forall i, j | 0 <= i < j < |records|
      ensures Rename(records[i].key, source, target) != Rename(records[j].key, source, target)
    {
      if Rename(records[i].key, source, target) == Rename(records[j].key, source, target) {
        RenameIsInjective(records[i].key, records[j].key, source, target);
      }
    }
  }

  // ---------- backup and restore together ----------

  /** Redis keeps a key until its expiry has passed. */
  predicate Live(db: Database, key: string, now: int) {
    key in db && (db[key].expiresAt.Some? ==> now <= db[key].expiresAt.value)
  }

  function Pttl(db: Database, key: string, now: int): int {
    if !Live(db, key, now) then -2
    else match db[key].expiresAt
      case None => -1
      case Some(e) => e - now
  }

  /** The reading is what Redis answers at its two moments, on or after the backup's creation. */
  predicate ReadsFrom(r: Reading, db: Database, createdAt: int) {
    && createdAt <= r.dumpAt <= r.ttlAt
    && r.dump == (if Live(db, r.key, r.dumpAt) then Some(db[r.key].dump) else None)
    && r.pttl == Pttl(db, r.key, r.ttlAt)
  }

  /** SCAN yields every key under the prefix; it may yield one more than once. */
  ghost predicate Scans(readings: seq<Reading>, db: Database, prefix: string, createdAt: int) {
    && (forall i :: 0 <= i < |readings| ==> Under(readings[i].key, prefix) && ReadsFrom(readings[i], db, createdAt))
    && (forall k :: k in db && Under(k, prefix) ==> exists i :: 0 <= i < |readings| && readings[i].key == k)
  }

  ghost predicate NoRepeats(readings: seq<Reading>) {
    forall i, j :: 0 <= i < j < |readings| ==> readings[i].key != readings[j].key
  }

  /** A backup can be read back exactly when no key that had a dump was scanned twice. */
  lemma RestorableIffScannedOnce(readings: seq<Reading>, db: Database, prefix: string, createdAt: int)
    requires Scans(readings, db, prefix, createdAt)
    ensures ValidRecords(RecordsOf(readings), prefix) <==> NoRepeats(Dumped(readings))
  {
    var records, dumped := RecordsOf(readings), Dumped(readings);
    forall i | 0 <= i < |records| ensures Under(records[i].key, prefix) && records[i].ttlMs >= 0 {
      assert dumped[i] in dumped;
    }
    if NoRepeats(dumped) {
      forall i, j | 0 <= i < j < |records| ensures records[i].key != records[j].key {
        assert dumped[i].key != dumped[j].key;
      }
    }
    if ValidRecords(records, prefix) {
      forall i, j | 0 <= i < j < |dumped| ensures dumped[i].key != dumped[j].key {
        assert records[i].key != records[j].key;
      }
    }
  }

  /** The lifetime a key is restored with, against the one it had.  A key without expiry is restored
  without one.  A key with an expiry is restored with one, no later than its own and earlier by the
  delay of the reading, exactly when it had time left at its PTTL reading; otherwise it stays for ever. */
  lemma RestoredLifetime(r: Reading, db: Database, createdAt: int)
    requires ReadsFrom(r, db, createdAt) && r.dump.Some?
    ensures var expiry := ExpiryOf(createdAt, RecordOf(r));
            match db[r.key].expiresAt
            case None => expiry == None
            case Some(e) =>
              if r.ttlAt < e then expiry == Some(e - (r.ttlAt - createdAt)) && expiry.value <= e else expiry == None
  {
  }

  /** The key had time left when its PTTL was read, or never expires. */
  predicate TimeLeft(db: Database, r: Reading) {
    r.key in db && (db[r.key].expiresAt.Some? ==> r.ttlAt < db[r.key].expiresAt.value)
  }

  /** The key comes back under its new name with its dump.  If it had time left at its PTTL reading, it
  has an expiry no later than its own, or is left out once that has passed; otherwise it stays for ever. */
  predicate Returns(
    after: Database, db: Database, r: Reading, createdAt: int, source: string, target: string, now: int)
  {
    && r.key in db && Under(r.key, source)
    && var key := Rename(r.key, source, target);
       match db[r.key].expiresAt
       case None => key in after && after[key] == db[r.key]
       case Some(e) =>
         var expiry := e - (r.ttlAt - createdAt);
         && expiry <= e
         && if !TimeLeft(db, r) then key in after && after[key] == Value(db[r.key].dump, None)
            else if expiry <= now then key !in after
            else key in after && after[key] == Value(db[r.key].dump, Some(expiry))
  }

  lemma ReadingReturns(
    after: Database, db: Database, r: Reading, createdAt: int, source: string, target: string, now: int)
    requires ReadsFrom(r, db, createdAt) && r.dump.Some? && Under(r.key, source)
    requires Lands(after, createdAt, RecordOf(r), source, target, now)
    ensures Returns(after, db, r, createdAt, source, target, now)
  {
    RestoredLifetime(r, db, createdAt);
  }

  /** Backing up one prefix and restoring it under another: every key of the source that was there to
  be dumped comes back, and nothing else is left under the target prefix. */
  lemma RoundTrip(
    readings: seq<Reading>, db: Database, source: string, createdAt: int,
    other: Database, target: string, clock: nat -> int)
    requires Scans(readings, db, source, createdAt) && NoRepeats(Dumped(readings))
    ensures ValidRecords(RecordsOf(readings), source)
    ensures var after := Restored(Cleared(other, target), createdAt, RecordsOf(readings), source, target, clock);
            && (forall i :: 0 <= i < |Dumped(readings)| ==>
                  Returns(after, db, Dumped(readings)[i], createdAt, source, target, clock(i)))
            && (forall k :: k in after && Under(k, target) ==>
                  exists i :: 0 <= i < |RecordsOf(readings)| && k == Rename(RecordsOf(readings)[i].key, source, target))
  {
    RestorableIffScannedOnce(readings, db, source, createdAt);
    var records, dumped := RecordsOf(readings), Dumped(readings);
    RestoreLeavesTheBackup(other, createdAt, records, source, target, clock);
    hide Restored, Returns, Lands, RecordOf, Dumped;
    var after := Restored(Cleared(other, target), createdAt, records, source, target, clock);
    forall i | 0 <= i < |dumped| ensures Returns(after, db, dumped[i], createdAt, source, target, clock(i)) {
      assert dumped[i] in dumped && dumped[i] in readings;
      assert Lands(after, createdAt, records[i], source, target, clock(i));
      ReadingReturns(after, db, dumped[i], createdAt, source, target, clock(i));
    }
  }

  // ---------- two backups that go wrong ----------

  /** One key, scanned twice: Redis may do that, and the backup can never be read back. */
  lemma ScannedTwiceIsRefused()
    ensures var db: Database := map["p:k" := Value("dump", None)];
            var r := Reading("p:k", Some("dump"), 0, -1, 0);
            Scans([r, r], db, "p", 0) && !ValidRecords(RecordsOf([r, r]), "p")
  {
    var db: Database := map["p:k" := Value("dump", None)];
    var r := Reading("p:k", Some("dump"), 0, -1, 0);
    var readings := [r, r];
    assert "p" + ":" <= "p:k";
    assert readings[0].key == "p:k";
    RestorableIffScannedOnce(readings, db, "p", 0);
    assert [r][..0] == [] && Dumped([]) == [];
    assert Dumped([r]) == Dumped([r][..0]) + [r] == [r];
    assert readings[..1] == [r] && readings[1] == r;
    assert Dumped(readings) == Dumped(readings[..1]) + [r] == [r, r];
    assert Dumped(readings)[0].key == Dumped(readings)[1].key;
  }

  /** A key with 5 ms to live when it is dumped.  Its PTTL, read just as it expires or later, is 0 or -2,
  and it is restored for ever. */
  lemma ExpiringKeyIsRestoredForEver(ttlAt: int)
    requires ttlAt >= 5
    ensures var db: Database := map["p:k" := Value("dump", Some(5))];
            var r := Reading("p:k", Some("dump"), 0, if ttlAt == 5 then 0 else -2, ttlAt);
            var after := Restored(map[], 0, RecordsOf([r]), "p", "q", _ => ttlAt);
            && Scans([r], db, "p", 0) && ValidRecords(RecordsOf([r]), "p")
            && "q:k" in after && after["q:k"] == Value("dump", None)
  {
    var db: Database := map["p:k" := Value("dump", Some(5))];
    var r := Reading("p:k", Some("dump"), 0, if ttlAt == 5 then 0 else -2, ttlAt);
    var readings, clock := [r], (i: nat) => ttlAt;
    assert "p" + ":" <= "p:k";
    assert readings[0].key == "p:k";
    assert readings[..0] == [] && Dumped(readings) == [r];
    assert RecordsOf(readings) == [Record("p:k", 0, "dump")];
    assert Rename("p:k", "p", "q") == "q:k";
    StartRestored(map[], 0, "p", "q", clock);
    OneMoreRecord(map[], 0, RecordsOf(readings), "p", "q", clock, 0);
    assert RecordsOf(readings)[..0] == [] && RecordsOf(readings)[..1] == RecordsOf(readings);
  }
}

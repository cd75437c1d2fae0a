/** `RealmList`: realms reloaded by polling the database, and shown offline when their rows stop changing. */
module RealmList {
  import opened Basics

  const OFFLINE: bv8 := 0x02
  const VALID_FLAGS: bv8 := 0x66

  /** The columns of a database row that the heartbeat looks at. */
  datatype Row = Row(id: nat, name: string, flags: bv8, population: int)

  datatype Realm = Realm(id: nat, realmFlags: bv8, population: int, lastSeenAlive: int, prevPopulation: int,
                         prevFlags: bv8)

  /** One query: the time, and the rows unless it failed. */
  datatype Poll = Poll(now: int, answer: Option<seq<Row>>)

  // ---- What the polls say ----

  /** The row that stands for `name`: the last one, rows with id 0 being skipped. */
  ghost function LastRow(rows: seq<Row>, name: string): (r: Option<Row>)
    ensures r.Some? ==> exists i | 0 <= i < |rows| :: r.value == rows[i] && LastAt(rows, name, i)
    ensures r.None? ==> forall row | row in rows :: row.id == 0 || row.name != name
  {
    if rows == [] then None
    else
      var row := rows[|rows| - 1];
      if row.id != 0 && row.name == name then Some(row) else LastRow(rows[..|rows| - 1], name)
  }

  /** Row `i` is the last one that counts for `name`. */
  ghost predicate LastAt(rows: seq<Row>, name: string, i: nat) {
    && i < |rows| && rows[i].id != 0 && rows[i].name == name
    && forall j | i < j < |rows| :: rows[j].id == 0 || rows[j].name != name
  }

  datatype Data = Data(population: int, flags: bv8)

  ghost function DataOf(row: Row): Data { Data(row.population, row.flags & 0x66) }

  /** The data a poll shows for a realm; None when it is absent or the poll failed. */
  ghost function Seen(p: Poll, name: string): Option<Data> {
    if p.answer.None? then None
    else
      var row := LastRow(p.answer.value, name);
      if row.None? then None else Some(DataOf(row.value))
  }

  /** Poll `k` starts the latest stretch of polls that all show the realm with its present data. */
  ghost predicate RunStarts(h: seq<Poll>, name: string, k: nat) {
    && k < |h| && Seen(h[|h| - 1], name).Some?
    && (forall j | k <= j < |h| :: Seen(h[j], name) == Seen(h[|h| - 1], name))
    && (k > 0 ==> Seen(h[k - 1], name) != Seen(h[|h| - 1], name))
  }

  /** There is exactly one such poll for every realm present in the last one. */
  lemma RunUnique(h: seq<Poll>, name: string, j: nat, k: nat)
    requires RunStarts(h, name, j) && RunStarts(h, name, k)
    ensures j == k
  {
  }

  lemma {:induction false} RunExists(h: seq<Poll>, name: string) returns (k: nat)
    requires h != [] && Seen(h[|h| - 1], name).Some?
    ensures RunStarts(h, name, k)
  {
    var now := Seen(h[|h| - 1], name);
    if |h| == 1 || Seen(h[|h| - 2], name) != now {
      k := |h| - 1;
    } else {
      k := RunExists(h[..|h| - 1], name);
      RunExtends(h[..|h| - 1], h[|h| - 1], name, k);
      assert h[..|h| - 1] + [h[|h| - 1]] == h;
    }
  }

  lemma RunExtends(h: seq<Poll>, p: Poll, name: string, k: nat)
    requires RunStarts(h, name, k) && Seen(p, name) == Seen(h[|h| - 1], name)
    ensures RunStarts(h + [p], name, k)
  {
    var h' := h + [p];
    forall j | k <= j < |h'| ensures Seen(h'[j], name) == Seen(p, name) {
      if j < |h| { assert Seen(h[j], name) == Seen(h[|h| - 1], name); }
    }
    if k > 0 { assert h'[k - 1] == h[k - 1]; }
  }

  // ---- What the list shows ----

  /** A realm as shown after the polls `h`: its age runs from the start of its latest run. */
  ghost predicate Shown(h: seq<Poll>, name: string, realm: Realm, staleTimeout: int, k: nat)
    requires k < |h|
  {
    var now := h[|h| - 1].now;
    && FromRow(h[|h| - 1], name, realm)
    && Seen(h[|h| - 1], name) == Some(Data(realm.population, realm.prevFlags))
    && realm.prevPopulation == realm.population && realm.lastSeenAlive == h[k].now
    && (realm.realmFlags & 0x02 != 0
        <==> realm.prevFlags & 0x02 != 0 || (staleTimeout > 0 && now - h[k].now > staleTimeout))
    && realm.realmFlags & 0xFD == realm.prevFlags & 0xFD
  }

  /** Id, population and flags are those of the last row with the realm's name. */
  ghost predicate FromRow(p: Poll, name: string, realm: Realm) {
    p.answer.Some? && exists i: nat :: LastAt(p.answer.value, name, i) && Copied(p.answer.value[i], realm)
  }

  ghost predicate Copied(row: Row, realm: Realm) {
    realm.id == row.id && realm.population == row.population && realm.prevFlags == row.flags & 0x66
  }

  /** Exactly the realms of the last poll are listed. */
  ghost predicate Tracks(h: seq<Poll>, realms: map<string, Realm>, staleTimeout: int) {
    && (h == [] ==> realms == map[])
    && (h != [] ==> forall name :: name in realms <==> Seen(h[|h| - 1], name).Some?)
    && (h != [] ==> forall name, k: nat | name in realms && RunStarts(h, name, k) ::
        Shown(h, name, realms[name], staleTimeout, k))
  }

  /** The realm made from a row. */
  ghost function Loaded(prior: map<string, Realm>, row: Row, now: int, init: bool, staleTimeout: int): Realm {
    var raw := row.flags & VALID_FLAGS;
    var changed := row.name !in prior || row.population != prior[row.name].prevPopulation
        || raw != prior[row.name].prevFlags;
    var alive := if changed || init then now else prior[row.name].lastSeenAlive;
    var flags := if staleTimeout > 0 && raw & OFFLINE == 0 && now - alive > staleTimeout then raw | OFFLINE else raw;
    Realm(row.id, flags, row.population, alive, row.population, raw)
  }

  lemma Flags(raw: bv8)
    ensures (raw | OFFLINE) & 0x02 != 0 && (raw | OFFLINE) & 0xFD == raw & 0xFD
  {
  }

  /** The realms after loading rows. */
  ghost predicate LoadedAll(prior: map<string, Realm>, rows: seq<Row>, now: int, init: bool, staleTimeout: int,
                            realms: map<string, Realm>) {
    && (forall name :: name in realms <==> LastRow(rows, name).Some?)
    && (forall name | name in realms ::
        realms[name] == Loaded(prior, LastRow(rows, name).value, now, init, staleTimeout))
  }

  lemma {:induction false} LastRowNamed(rows: seq<Row>, name: string)
    ensures LastRow(rows, name).Some? ==> LastRow(rows, name).value.name == name
  {
    if rows != [] { LastRowNamed(rows[..|rows| - 1], name); }
  }

  /** One more poll keeps the list tracking the history. */
  lemma PollTracks(h: seq<Poll>, prior: map<string, Realm>, now: int, rows: seq<Row>, init: bool, staleTimeout: int,
                   realms: map<string, Realm>)
    requires Tracks(h, prior, staleTimeout) && (init ==> h == [])
    requires LoadedAll(prior, rows, now, init, staleTimeout, realms)
    ensures Tracks(h + [Poll(now, Some(rows))], realms, staleTimeout)
  {
    var p := Poll(now, Some(rows));
    var h' := h + [p];
    forall name, k: nat | name in realms && RunStarts(h', name, k)
      ensures Shown(h', name, realms[name], staleTimeout, k)
    {
      RealmTracks(h, prior, p, init, staleTimeout, name, k);
    }
  }

  lemma LoadedFromRow(prior: map<string, Realm>, p: Poll, init: bool, staleTimeout: int, name: string)
    requires p.answer.Some? && LastRow(p.answer.value, name).Some?
    ensures FromRow(p, name, Loaded(prior, LastRow(p.answer.value, name).value, p.now, init, staleTimeout))
  {
    var row := LastRow(p.answer.value, name).value;
    var i :| 0 <= i < |p.answer.value| && row == p.answer.value[i] && LastAt(p.answer.value, name, i);
    assert Copied(p.answer.value[i], Loaded(prior, row, p.now, init, staleTimeout));
  }

  lemma RealmTracks(h: seq<Poll>, prior: map<string, Realm>, p: Poll, init: bool, staleTimeout: int, name: string,
                    k: nat)
    requires Tracks(h, prior, staleTimeout) && (init ==> h == []) && p.answer.Some?
    requires LastRow(p.answer.value, name).Some?
    requires RunStarts(h + [p], name, k)
    ensures Shown(h + [p], name, Loaded(prior, LastRow(p.answer.value, name).value, p.now, init, staleTimeout),
                  staleTimeout, k)
  {
    var row := LastRow(p.answer.value, name).value;
    LastRowNamed(p.answer.value, name);
    LoadedFromRow(prior, p, init, staleTimeout, name);
    Flags(row.flags & VALID_FLAGS);
    if h != [] && Seen(h[|h| - 1], name) == Seen(p, name) {
      var j := RunExists(h, name);
      RunExtends(h, p, name, j);
      RunUnique(h + [p], name, j, k);
      assert Shown(h, name, prior[name], staleTimeout, j);
    } else {
      assert RunStarts(h + [p], name, |h|);
      RunUnique(h + [p], name, |h|, k);
      if name in prior {
        var j := RunExists(h, name);
        assert Shown(h, name, prior[name], staleTimeout, j);
      }
    }
  }

  class RealmList {
    var realms: map<string, Realm>
    var updateInterval: nat
    var nextUpdateTime: int
    var staleTimeout: int
    /** Every poll so far. */
    ghost var history: seq<Poll>

    ghost predicate Valid()
      reads this
    {
      Tracks(history, realms, staleTimeout)
    }

    constructor ()
      ensures Valid() && history == [] && realms == map[]
    {
      realms, updateInterval, nextUpdateTime, staleTimeout := map[], 0, 0, 0;
      history := [];
    }

    /** The first poll. */
    method Initialize(updateInterval: nat, staleTimeout: int, p: Poll)
      requires Valid() && history == []
      modifies this
      ensures Valid() && history == [p]
      ensures this.updateInterval == updateInterval && this.staleTimeout == staleTimeout
    {
      this.updateInterval, this.staleTimeout := updateInterval, staleTimeout;
      UpdateRealms(p, true, map[]);
    }

    /** A poll, unless polling is off or the interval has not passed yet. */
    method UpdateIfNeeded(clock: int, p: Poll)
      requires Valid()
      modifies this
      ensures Valid() && updateInterval == old(updateInterval) && staleTimeout == old(staleTimeout)
      ensures var due := updateInterval != 0 && old(nextUpdateTime) <= clock;
              && history == old(history) + (if due then [p] else [])
              && nextUpdateTime == (if due then clock + updateInterval else old(nextUpdateTime))
              && (!due ==> realms == old(realms))
    {
      if updateInterval == 0 { return; }
      if nextUpdateTime > clock { return; }
      nextUpdateTime := clock + updateInterval;
      var oldRealms := realms;
      realms := map[];
      UpdateRealms(p, false, oldRealms);
    }

    method UpdateRealms(p: Poll, init: bool, oldRealms: map<string, Realm>)
      requires realms == map[] && Tracks(history, oldRealms, staleTimeout) && (init ==> history == [])
      modifies this`realms, this`history
      ensures Valid() && history == old(history) + [p]
    {
      hide Tracks, LoadedAll, Loaded, LastRow;
      history := history + [p];
      if p.answer.None? {
        FailTracks(old(history), p, staleTimeout);
        return;
      }
      var rows := p.answer.value;
      LoadsNone(oldRealms, p.now, init, staleTimeout);
      for i := 0 to |rows|
        invariant history == old(history) + [p] && LoadedAll(oldRealms, rows[..i], p.now, init, staleTimeout, realms)
      {
        LoadsNext(oldRealms, rows[..i], rows[i], p.now, init, staleTimeout, realms);
        assert rows[..i + 1] == rows[..i] + [rows[i]];
        if rows[i].id == 0 { continue; }
        var realm := LoadRow(rows[i], p.now, init, oldRealms);
        realms := realms[rows[i].name := realm];
      }
      assert rows[..|rows|] == rows && p == Poll(p.now, Some(rows));
      PollTracks(old(history), oldRealms, p.now, rows, init, staleTimeout, realms);
    }

    /** The loop body of the source for a row with a proper id. */
    method LoadRow(row: Row, now: int, init: bool, oldRealms: map<string, Realm>) returns (realm: Realm)
      ensures realm == Loaded(oldRealms, row, now, init, staleTimeout)
    {
      var rawFlags := row.flags;
      if rawFlags & !VALID_FLAGS != 0 { rawFlags := rawFlags & VALID_FLAGS; }
      MaskIdle(row.flags);
      var changed, prevAlive := true, now;
      if row.name in oldRealms {
        var before := oldRealms[row.name];
        changed := row.population != before.prevPopulation || rawFlags != before.prevFlags;
        prevAlive := before.lastSeenAlive;
      }
      var lastSeenAlive := if changed || init then now else prevAlive;
      var flags := rawFlags;
      if staleTimeout > 0 && rawFlags & OFFLINE == 0 && now - lastSeenAlive > staleTimeout {
        flags := flags | OFFLINE;
      }
      realm := Realm(row.id, flags, row.population, lastSeenAlive, row.population, rawFlags);
    }
  }

  lemma LoadsNone(prior: map<string, Realm>, now: int, init: bool, staleTimeout: int)
    ensures LoadedAll(prior, [], now, init, staleTimeout, map[])
  {
  }

  lemma LoadsNext(prior: map<string, Realm>, rows: seq<Row>, row: Row, now: int, init: bool, staleTimeout: int,
                  realms: map<string, Realm>)
    requires LoadedAll(prior, rows, now, init, staleTimeout, realms)
    ensures row.id == 0 ==> LoadedAll(prior, rows + [row], now, init, staleTimeout, realms)
    ensures row.id != 0 ==>
              LoadedAll(prior, rows + [row], now, init, staleTimeout,
                        realms[row.name := Loaded(prior, row, now, init, staleTimeout)])
  {
    hide Loaded, LastRow;
    LastRowNext(rows, row);
  }

  lemma LastRowNext(rows: seq<Row>, row: Row)
    ensures forall name :: LastRow(rows + [row], name)
                           == if row.id != 0 && row.name == name then Some(row) else LastRow(rows, name)
  {
    assert (rows + [row])[..|rows|] == rows;
  }

  /** After a failed poll nothing is listed. */
  lemma FailTracks(h: seq<Poll>, p: Poll, staleTimeout: int)
    requires p.answer.None?
    ensures Tracks(h + [p], map[], staleTimeout)
  {
  }

  lemma MaskIdle(flags: bv8)
    ensures flags & !VALID_FLAGS == 0 ==> flags & VALID_FLAGS == flags
  {
  }
}

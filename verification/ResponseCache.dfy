/**
  The turbocache: eight slots searched linearly with a hash as pre-filter, replaced oldest
  first. The slots are shown to implement a map of at most eight keys, and the map to hold,
  for each key, the latest store that was not undone since.
 */
module ResponseCacheModel {
  import opened Basics
  import opened CacheKey

  const MAX_ENTRIES: nat := 8
  const MAX_HEADER_SIZE: nat := 4096
  const MAX_BODY_SIZE: nat := 32768

  datatype Header = Header(valid: bool, keySize: nat, hash: nat, date: int)

  /** The part of a cached response that the cache itself writes. `serial` stands for the response
      data: it is the number of the store that the entry belongs to. */
  datatype Entry = Entry(date: int, expiry: int, headerSize: nat, bodySize: nat, serial: nat)

  /** `key` is the fixed-size buffer; only its first `keySize` bytes are meaningful. */
  datatype Body = Body(key: Bytes, expiry: int, headerSize: nat, bodySize: nat, serial: nat)

  datatype Slot = Slot(header: Header, body: Body)

  /** The slots of the arrays, in order. */
  type Slots = seq<Slot>

  type HashFunction = Bytes -> nat

  function KeyOf(s: Slot): Bytes {
    if s.header.keySize <= |s.body.key| then s.body.key[..s.header.keySize] else s.body.key
  }

  function EntryOf(s: Slot): Entry {
    Entry(s.header.date, s.body.expiry, s.body.headerSize, s.body.bodySize, s.body.serial)
  }

  // ----- searching

  predicate Matches(s: Slot, key: Bytes, hash: HashFunction) {
    s.header.valid && s.header.hash == hash(key) && key == KeyOf(s)
  }

  /** `lookup`: the first slot that is valid and passes the hash and the key comparison. */
  function Lookup(slots: Slots, key: Bytes, hash: HashFunction): (r: Option<nat>)
    ensures r.Some? ==> r.value < |slots| && Matches(slots[r.value], key, hash)
    ensures r.None? ==> forall i | 0 <= i < |slots| :: !Matches(slots[i], key, hash)
  {
    LookupFrom(slots, key, hash, 0)
  }

  function LookupFrom(slots: Slots, key: Bytes, hash: HashFunction, i: nat): (r: Option<nat>)
    requires i <= |slots|
    ensures r.Some? ==> i <= r.value < |slots| && Matches(slots[r.value], key, hash)
    ensures r.None? ==> forall j | i <= j < |slots| :: !Matches(slots[j], key, hash)
    decreases |slots| - i
  {
    if i == |slots| then None
    else if Matches(slots[i], key, hash) then Some(i)
    else LookupFrom(slots, key, hash, i + 1)
  }

  predicate Full(slots: Slots) {
    forall i | 0 <= i < |slots| :: slots[i].header.valid
  }

  /** `lookupInvalidOrOldest`: the first invalid slot, or else the first of minimal date. */
  predicate IsVictim(slots: Slots, v: nat) {
    && v < |slots|
    && (if Full(slots) then
          && (forall i | 0 <= i < |slots| :: slots[v].header.date <= slots[i].header.date)
          && (forall i | 0 <= i < v :: slots[v].header.date < slots[i].header.date)
        else
          !slots[v].header.valid && forall i | 0 <= i < v :: slots[i].header.valid)
  }

  /** What a slot means: nothing, or one binding. */
  datatype Cell = Empty | Used(key: Bytes, entry: Entry)

  function CellOf(s: Slot): Cell {
    if s.header.valid then Used(KeyOf(s), EntryOf(s)) else Empty
  }

  function Cells(slots: Slots): (cells: seq<Cell>)
    ensures |cells| == |slots| && forall i | 0 <= i < |slots| :: cells[i] == CellOf(slots[i])
  {
    seq(|slots|, i requires 0 <= i < |slots| => CellOf(slots[i]))
  }

  predicate Distinct(cells: seq<Cell>) {
    forall i, j | 0 <= i < j < |cells| && cells[i].Used? && cells[j].Used? :: cells[i].key != cells[j].key
  }

  /** Every slot has the fixed buffer, and a valid one carries the hash of its key. */
  predicate SlotSound(s: Slot, hash: HashFunction) {
    && |s.body.key| == MAX_KEY_LENGTH && s.header.keySize <= MAX_KEY_LENGTH
    && (s.header.valid ==> s.header.hash == hash(KeyOf(s)))
  }

  predicate Sound(slots: Slots, hash: HashFunction) {
    Distinct(Cells(slots)) && forall i | 0 <= i < |slots| :: SlotSound(slots[i], hash)
  }

  lemma BufferSize(s: Slot, hash: HashFunction)
    requires SlotSound(s, hash)
    ensures |s.body.key| == MAX_KEY_LENGTH && s.header.keySize <= MAX_KEY_LENGTH
  {
  }

  /** The map that the cells stand for. */
  ghost function Contents(cells: seq<Cell>): (m: map<Bytes, Entry>)
    requires Distinct(cells)
  {
    map i | 0 <= i < |cells| && cells[i].Used? :: cells[i].key := cells[i].entry
  }

  /** Hash-filtered search is plain search by key, whatever the hash function. */
  lemma LookupIsKeySearch(slots: Slots, key: Bytes, hash: HashFunction)
    requires Sound(slots, hash)
    ensures Lookup(slots, key, hash).Some? <==> key in Contents(Cells(slots))
    ensures Lookup(slots, key, hash).Some? ==>
              CellOf(slots[Lookup(slots, key, hash).value]) == Used(key, Contents(Cells(slots))[key])
  {
  }

  // ----- changing cells

  /** Emptying a cell removes its key and nothing else. */
  lemma EmptyingRemovesKey(cells: seq<Cell>, i: nat)
    requires Distinct(cells) && i < |cells| && cells[i].Used?
    ensures Distinct(cells[i := Empty]) && Contents(cells[i := Empty]) == Contents(cells) - {cells[i].key}
  {
    var after := cells[i := Empty];
    assert Distinct(after);
    var gone := cells[i].key;
    forall k ensures k in Contents(after) <==> k in Contents(cells) && k != gone {
      EmptyingKeepsOthers(cells, i, k);
    }
    forall k | k in Contents(after) ensures Contents(after)[k] == Contents(cells)[k] {
      EmptyingKeepsOthers(cells, i, k);
    }
    hide Contents, Distinct;
    assert Contents(after) == Contents(cells) - {gone};
  }

  lemma EmptyingKeepsOthers(cells: seq<Cell>, i: nat, k: Bytes)
    requires Distinct(cells) && i < |cells| && cells[i].Used?
    ensures Distinct(cells[i := Empty])
    ensures k in Contents(cells[i := Empty]) <==> k in Contents(cells) && k != cells[i].key
    ensures k in Contents(cells[i := Empty]) ==> Contents(cells[i := Empty])[k] == Contents(cells)[k]
  {
    var after := cells[i := Empty];
    if k in Contents(cells) && k != cells[i].key {
      var j :| 0 <= j < |cells| && cells[j].Used? && cells[j].key == k;
      assert after[j].Used? && after[j].key == k;
    }
    if k in Contents(after) {
      var j :| 0 <= j < |after| && after[j].Used? && after[j].key == k;
      assert cells[j].Used? && cells[j].key == k;
    }
  }

  /** Filling an empty cell with a new key adds exactly that binding. */
  lemma FillingAddsKey(cells: seq<Cell>, i: nat, key: Bytes, e: Entry)
    requires Distinct(cells) && i < |cells| && cells[i].Empty? && key !in Contents(cells)
    ensures Distinct(cells[i := Used(key, e)])
    ensures Contents(cells[i := Used(key, e)]) == Contents(cells)[key := e]
  {
    var after := cells[i := Used(key, e)];
    forall j | 0 <= j < |cells| && cells[j].Used? ensures cells[j].key != key {
      assert cells[j].key in Contents(cells);
    }
    var m, m' := Contents(cells)[key := e], Contents(after);
    forall k | k in m ensures k in m' && m'[k] == m[k] {
      if k == key {
        assert after[i].Used? && after[i].key == k;
      } else {
        var j :| 0 <= j < |cells| && cells[j].Used? && cells[j].key == k;
        assert after[j].Used? && after[j].key == k;
      }
    }
    forall k | k in m' ensures k in m {
      var j :| 0 <= j < |after| && after[j].Used? && after[j].key == k;
      assert j != i ==> cells[j].Used? && cells[j].key == k;
    }
  }

  /** Rewriting a used cell under its own key changes that binding only; under a new key it
      replaces the old binding by the new one. */
  lemma RewritingReplacesKey(cells: seq<Cell>, i: nat, key: Bytes, e: Entry)
    requires Distinct(cells) && i < |cells| && cells[i].Used?
    requires key == cells[i].key || key !in Contents(cells)
    ensures Distinct(cells[i := Used(key, e)])
    ensures Contents(cells[i := Used(key, e)]) == (Contents(cells) - {cells[i].key})[key := e]
  {
    EmptyingRemovesKey(cells, i);
    FillingAddsKey(cells[i := Empty], i, key, e);
    assert cells[i := Empty][i := Used(key, e)] == cells[i := Used(key, e)];
  }

  predicate AllUsed(cells: seq<Cell>) {
    forall i | 0 <= i < |cells| :: cells[i].Used?
  }

  ghost function KeysOf(cells: seq<Cell>): set<Bytes> {
    set i | 0 <= i < |cells| && cells[i].Used? :: cells[i].key
  }

  /** The map has as many keys as there are used cells, so eight slots hold at most eight keys and
      are all valid exactly when they hold eight. */
  lemma SizeIsUsedCount(cells: seq<Cell>)
    requires Distinct(cells)
    ensures |Contents(cells)| <= |cells|
    ensures |Contents(cells)| == |cells| <==> AllUsed(cells)
  {
    assert Contents(cells).Keys == KeysOf(cells);
    assert |Contents(cells)| == |Contents(cells).Keys|;
    CountKeys(cells);
  }

  lemma {:induction false} CountKeys(cells: seq<Cell>)
    requires Distinct(cells)
    ensures |KeysOf(cells)| <= |cells|
    ensures |KeysOf(cells)| == |cells| <==> AllUsed(cells)
    decreases |cells|
  {
    if cells != [] {
      var rest, last := cells[..|cells| - 1], cells[|cells| - 1];
      assert Distinct(rest);
      CountKeys(rest);
      LastIsNew(cells);
      hide KeysOf, AllUsed, Distinct;
      KeysOfSnoc(rest, last);
      assert cells == rest + [last];
    }
  }

  lemma LastIsNew(cells: seq<Cell>)
    requires Distinct(cells) && cells != []
    ensures
      var rest, last := cells[..|cells| - 1], cells[|cells| - 1];
      && (last.Used? ==> last.key !in KeysOf(rest))
      && (AllUsed(cells) <==> AllUsed(rest) && last.Used?)
  {
  }

  lemma KeysOfSnoc(cells: seq<Cell>, c: Cell)
    ensures KeysOf(cells + [c]) == KeysOf(cells) + if c.Used? then {c.key} else {}
  {
    var after := cells + [c];
    assert after[|cells|] == c;
    forall k | k in KeysOf(cells) ensures k in KeysOf(after) {
      var i :| 0 <= i < |cells| && cells[i].Used? && cells[i].key == k;
      assert after[i].Used? && after[i].key == k;
    }
  }

  ghost predicate IsOldest(m: map<Bytes, Entry>, key: Bytes) {
    key in m && forall k <- m :: m[key].date <= m[k].date
  }

  /** The slot to be overwritten is in use exactly when eight keys are stored, and then it holds an
      entry of minimal date. */
  lemma VictimIsOldest(slots: Slots, hash: HashFunction, v: nat)
    requires Sound(slots, hash) && IsVictim(slots, v)
    ensures CellOf(slots[v]).Used? <==> |Contents(Cells(slots))| == |slots|
    ensures CellOf(slots[v]).Used? <==> Full(slots)
    ensures Full(slots) ==> IsOldest(Contents(Cells(slots)), KeyOf(slots[v]))
  {
    var cells := Cells(slots);
    SizeIsUsedCount(cells);
    FullCells(slots);
    if Full(slots) {
      OldestCell(slots, v);
    }
  }

  lemma FullCells(slots: Slots)
    ensures AllUsed(Cells(slots)) <==> Full(slots)
  {
  }

  lemma OldestCell(slots: Slots, v: nat)
    requires Distinct(Cells(slots)) && Full(slots) && IsVictim(slots, v)
    ensures IsOldest(Contents(Cells(slots)), KeyOf(slots[v]))
  {
  }

  /** After one slot was written, the map is what the changed cells stand for. */
  lemma SlotWritten(before: Slots, after: Slots, hash: HashFunction, i: nat, key: Bytes, e: Entry)
    requires Sound(before, hash) && i < |before| && |after| == |before| && after == before[i := after[i]]
    requires SlotSound(after[i], hash) && CellOf(after[i]) == Used(key, e)
    requires Distinct(Cells(before)[i := Used(key, e)])
    ensures Sound(after, hash)
    ensures Contents(Cells(after)) == Contents(Cells(before)[i := Used(key, e)])
  {
    hide SlotSound;
    assert Cells(after) == Cells(before)[i := Used(key, e)];
  }

  /** Writing a new key over the victim adds its binding, at the expense of an oldest one exactly
      when eight keys were stored. */
  lemma InsertRefines(before: Slots, after: Slots, hash: HashFunction, v: nat, key: Bytes, e: Entry)
    returns (evicted: Option<Bytes>)
    requires Sound(before, hash) && IsVictim(before, v) && key !in Contents(Cells(before))
    requires |after| == |before| && after == before[v := after[v]]
    requires SlotSound(after[v], hash) && CellOf(after[v]) == Used(key, e)
    ensures Sound(after, hash)
    ensures evicted.Some? <==> |Contents(Cells(before))| == |before|
    ensures evicted.None? ==> Contents(Cells(after)) == Contents(Cells(before))[key := e]
    ensures evicted.Some? ==>
              && IsOldest(Contents(Cells(before)), evicted.value)
              && Contents(Cells(after)) == (Contents(Cells(before)) - {evicted.value})[key := e]
  {
    var cells := Cells(before);
    VictimIsOldest(before, hash, v);
    if cells[v].Used? {
      evicted := Some(KeyOf(before[v]));
      RewritingReplacesKey(cells, v, key, e);
    } else {
      evicted := None;
      FillingAddsKey(cells, v, key, e);
    }
    hide Contents, Distinct, Full, IsOldest, SlotSound;
    SlotWritten(before, after, hash, v, key, e);
  }

  /** Writing a known key over its own slot changes its binding only. */
  lemma UpdateRefines(before: Slots, after: Slots, hash: HashFunction, i: nat, key: Bytes, e: Entry)
    requires Sound(before, hash) && i < |before| && Matches(before[i], key, hash)
    requires |after| == |before| && after == before[i := after[i]]
    requires SlotSound(after[i], hash) && CellOf(after[i]) == Used(key, e)
    ensures Sound(after, hash)
    ensures Contents(Cells(after)) == Contents(Cells(before))[key := e]
  {
    assert Cells(before)[i] == CellOf(before[i]);
    RewritingReplacesKey(Cells(before), i, key, e);
    hide Contents, Distinct, SlotSound;
    SlotWritten(before, after, hash, i, key, e);
  }

  // ----- history

  /** What happened to the map: an entry was stored, or a key was removed because it was
      invalidated, evicted or found stale, or everything was cleared. */
  datatype Op = Stored(key: Bytes, entry: Entry) | Removed(key: Bytes) | Cleared

  function Apply(m: map<Bytes, Entry>, op: Op): map<Bytes, Entry> {
    match op
    case Stored(key, entry) => m[key := entry]
    case Removed(key) => m - {key}
    case Cleared => map[]
  }

  function Replay(log: seq<Op>): map<Bytes, Entry> {
    if log == [] then map[] else Apply(Replay(log[..|log| - 1]), log[|log| - 1])
  }

  lemma ReplaySnoc(log: seq<Op>, op: Op)
    ensures Replay(log + [op]) == Apply(Replay(log), op)
  {
  }

  predicate Affects(op: Op, key: Bytes) {
    op.Cleared? || op.key == key
  }

  /** Operation `i` stored `e` under `key`, and nothing undid it since. */
  predicate IsLatest(log: seq<Op>, key: Bytes, e: Entry, i: int) {
    0 <= i < |log| && log[i] == Stored(key, e) && forall j | i < j < |log| :: !Affects(log[j], key)
  }

  /** The map holds an entry under a key exactly when that entry is the latest store for the key
      that was not invalidated, evicted, found stale or cleared since. */
  lemma {:induction false} ContentIsLatestStore(log: seq<Op>, key: Bytes, e: Entry)
    ensures key in Replay(log) && Replay(log)[key] == e <==> exists i :: IsLatest(log, key, e, i)
    decreases |log|
  {
    if log != [] {
      var n := |log| - 1;
      var earlier, op := log[..n], log[n];
      ContentIsLatestStore(earlier, key, e);
      if op == Stored(key, e) {
        assert IsLatest(log, key, e, n);
      } else if !Affects(op, key) {
        if i :| IsLatest(earlier, key, e, i) {
          assert IsLatest(log, key, e, i);
        }
        if i :| IsLatest(log, key, e, i) {
          assert IsLatest(earlier, key, e, i);
        }
      } else {
        forall i ensures !IsLatest(log, key, e, i) {
        }
      }
    }
  }
}

module ResponseCache {
  import opened Basics
  import opened CacheKey
  import opened CacheRules
  import opened ResponseCacheModel

  datatype Fetched = Hit(index: nat) | NotFound | NotFresh

  function Zip(headers: seq<Header>, bodies: seq<Body>): (s: Slots)
    requires |headers| == |bodies|
    ensures |s| == |headers| && forall i | 0 <= i < |s| :: s[i] == Slot(headers[i], bodies[i])
  {
    seq(|headers|, i requires 0 <= i < |headers| => Slot(headers[i], bodies[i]))
  }

  class Cache {
    const hash: HashFunction
    const headers: array<Header>
    const bodies: array<Body>
    var fetches: nat
    var hits: nat
    var stores: nat
    var storeSuccesses: nat
    var nextSerial: nat
    ghost var log: seq<Op>

    ghost function View(): Slots
      reads headers, bodies
      requires headers.Length == bodies.Length
    {
      Zip(headers[..], bodies[..])
    }

    /** The statistics stay consistent across roll-over, and the slots implement the map that the
        history defines. */
    ghost predicate Valid()
      reads this, headers, bodies
    {
      && headers.Length == bodies.Length == MAX_ENTRIES
      && Sound(View(), hash)
      && Contents(Cells(View())) == Replay(log)
      && hits <= fetches < UINT_RANGE
      && stores < UINT_RANGE && storeSuccesses < UINT_RANGE
    }

    ghost function Map(): map<Bytes, Entry>
      reads this, headers, bodies
      requires Valid()
    {
      Contents(Cells(View()))
    }

    constructor (hash: HashFunction)
      ensures Valid() && Map() == map[] && log == [] && this.hash == hash
      ensures fresh(headers) && fresh(bodies)
    {
      this.hash := hash;
      headers := new Header[MAX_ENTRIES](_ => Header(false, 0, 0, 0));
      bodies := new Body[MAX_ENTRIES](_ => Body(seq(MAX_KEY_LENGTH, _ => 0), 0, 0, 0, 0));
      fetches, hits, stores, storeSuccesses, nextSerial := 0, 0, 0, 0, 0;
      log := [];
      new;
      assert Contents(Cells(View())) == map[];
    }

    /** `lookup` */
    method Search(key: Bytes) returns (r: Option<nat>)
      requires headers.Length == bodies.Length == MAX_ENTRIES
      requires forall i | 0 <= i < MAX_ENTRIES :: headers[i].keySize <= |bodies[i].key|
      ensures r == Lookup(View(), key, hash)
    {
      var i := 0;
      while i < MAX_ENTRIES
        invariant 0 <= i <= MAX_ENTRIES
        invariant Lookup(View(), key, hash) == LookupFrom(View(), key, hash, i)
      {
        assert View()[i] == Slot(headers[i], bodies[i]);
        if headers[i].valid && headers[i].hash == hash(key) && key == bodies[i].key[..headers[i].keySize] {
          return Some(i);
        }
        i := i + 1;
      }
      return None;
    }

    /** The slot of a key, found exactly when the key is in the map. */
    method Probe(key: Bytes) returns (r: Option<nat>)
      requires Valid()
      ensures r.Some? <==> key in Map()
      ensures r.Some? ==> r.value < MAX_ENTRIES && CellOf(View()[r.value]) == Used(key, Map()[key])
      ensures r.Some? ==> Matches(View()[r.value], key, hash)
    {
      assert forall j | 0 <= j < MAX_ENTRIES :: SlotSound(View()[j], hash);
      LookupIsKeySearch(View(), key, hash);
      r := Search(key);
    }

    /** `lookupInvalidOrOldest` */
    method FindVictim() returns (v: nat)
      requires headers.Length == bodies.Length == MAX_ENTRIES
      ensures IsVictim(View(), v)
    {
      ghost var slots := View();
      var oldest := -1;
      var i := 0;
      while i < MAX_ENTRIES
        invariant 0 <= i <= MAX_ENTRIES
        invariant oldest == -1 <==> i == 0
        invariant -1 <= oldest < i || i == 0
        invariant forall j | 0 <= j < i :: slots[j].header.valid
        invariant i > 0 ==> forall j | 0 <= j < i :: slots[oldest].header.date <= slots[j].header.date
        invariant i > 0 ==> forall j | 0 <= j < oldest :: slots[oldest].header.date < slots[j].header.date
      {
        if !headers[i].valid {
          return i;
        } else if oldest == -1 || headers[i].date < headers[oldest].date {
          oldest := i;
        }
        i := i + 1;
      }
      return oldest;
    }

    /** `erase`: the slot is only marked. */
    method Erase(i: nat)
      requires Valid() && i < MAX_ENTRIES && headers[i].valid
      modifies headers, this`log
      ensures Valid()
      ensures log == old(log) + [Removed(KeyOf(old(View()[i])))]
      ensures Map() == old(Map()) - {KeyOf(old(View()[i]))}
    {
      ghost var before := View();
      headers[i] := headers[i].(valid := false);
      log := log + [Removed(KeyOf(before[i]))];
      ghost var after := View();
      assert Cells(after) == Cells(before)[i := Empty];
      EmptyingRemovesKey(Cells(before), i);
      ReplaySnoc(old(log), Removed(KeyOf(before[i])));
      assert forall j | 0 <= j < MAX_ENTRIES :: SlotSound(before[j], hash);
    }

    method Clear()
      requires Valid()
      modifies headers, this`log
      ensures Valid() && Map() == map[] && log == old(log) + [Cleared]
    {
      ghost var before := View();
      var i := 0;
      while i < MAX_ENTRIES
        invariant 0 <= i <= MAX_ENTRIES
        invariant log == old(log)
        invariant forall j | 0 <= j < MAX_ENTRIES ::
                    headers[j] == if j < i then old(headers[j]).(valid := false) else old(headers[j])
      {
        headers[i] := headers[i].(valid := false);
        i := i + 1;
      }
      log := log + [Cleared];
      ReplaySnoc(old(log), Cleared);
      assert forall j | 0 <= j < MAX_ENTRIES :: SlotSound(before[j], hash);
      assert Contents(Cells(View())) == map[];
    }

    /** An entry is returned only if it is stored under the key and still fresh; a stale one is
        dropped. */
    method Fetch(key: Bytes, now: real) returns (r: Fetched)
      requires Valid()
      modifies this, headers
      ensures Valid()
      ensures r.Hit? <==> key in old(Map()) && old(Map())[key].expiry as real > now
      ensures r.Hit? ==> r.index < MAX_ENTRIES && CellOf(View()[r.index]) == Used(key, old(Map())[key])
      ensures r.Hit? ==> exists i :: IsLatest(old(log), key, old(Map())[key], i)
      ensures r.NotFound? <==> key !in old(Map())
      ensures Map() == if r.NotFresh? then old(Map()) - {key} else old(Map())
      ensures log == if r.NotFresh? then old(log) + [Removed(key)] else old(log)
      ensures fetches == (if old(fetches) + 1 == UINT_RANGE then 1 else old(fetches) + 1)
      ensures hits == (if old(fetches) + 1 == UINT_RANGE then 0 else old(hits)) + (if r.NotFound? then 0 else 1)
    {
      hide Contents, Replay, Sound, KeyOf;
      fetches := (fetches + 1) % UINT_RANGE;
      if fetches == 0 {
        fetches := 1;
        hits := 0;
      }
      var entry := Probe(key);
      if entry == None {
        return NotFound;
      }
      hits := hits + 1;
      if bodies[entry.value].expiry as real > now {
        ContentIsLatestStore(log, key, old(Map())[key]);
        return Hit(entry.value);
      }
      Erase(entry.value);
      return NotFresh;
    }

    /** Writes one slot for `key`: the key is copied into the slot unless the slot already has it. */
    method WriteSlot(i: nat, key: Bytes, claim: bool, e: Entry)
      requires headers.Length == bodies.Length == MAX_ENTRIES && i < MAX_ENTRIES
      requires |key| <= MAX_KEY_LENGTH == |bodies[i].key|
      requires !claim ==> Matches(Slot(headers[i], bodies[i]), key, hash) && headers[i].keySize <= MAX_KEY_LENGTH
      modifies headers, bodies
      ensures View() == old(View())[i := View()[i]]
      ensures SlotSound(View()[i], hash) && CellOf(View()[i]) == Used(key, e)
    {
      if claim {
        headers[i] := headers[i].(valid := true, hash := hash(key), keySize := |key|);
        bodies[i] := bodies[i].(key := key + bodies[i].key[|key|..]);
      }
      headers[i] := headers[i].(date := e.date);
      bodies[i] := bodies[i].(expiry := e.expiry, serial := e.serial);
      bodies[i] := bodies[i].(headerSize := e.headerSize, bodySize := e.bodySize);
      assert bodies[i].key[..headers[i].keySize] == key;
    }

    /** The key has a slot already. */
    method Update(i: nat, key: Bytes, e: Entry)
      requires Valid() && i < MAX_ENTRIES && Matches(View()[i], key, hash) && |key| <= MAX_KEY_LENGTH
      modifies headers, bodies, this`log
      ensures Valid() && Map() == old(Map())[key := e] && log == old(log) + [Stored(key, e)]
    {
      hide Contents, Replay, Distinct, KeyOf, CellOf, SlotSound;
      assert SlotSound(View()[i], hash);
      BufferSize(View()[i], hash);
      WriteSlot(i, key, false, e);
      UpdateRefines(old(View()), View(), hash, i, key, e);
      log := log + [Stored(key, e)];
      ReplaySnoc(old(log), Stored(key, e));
    }

    /** The key takes an invalid slot, or that of the oldest entry. */
    method Insert(key: Bytes, e: Entry) returns (v: nat, ghost evicted: Option<Bytes>)
      requires Valid() && key !in Map() && |key| <= MAX_KEY_LENGTH
      modifies headers, bodies, this`log
      ensures Valid() && v < MAX_ENTRIES
      ensures evicted.Some? <==> |old(Map())| == MAX_ENTRIES
      ensures evicted.None? ==> Map() == old(Map())[key := e] && log == old(log) + [Stored(key, e)]
      ensures evicted.Some? ==>
                && IsOldest(old(Map()), evicted.value)
                && Map() == (old(Map()) - {evicted.value})[key := e]
                && log == old(log) + [Removed(evicted.value)] + [Stored(key, e)]
    {
      hide Contents, Replay, Distinct, KeyOf, CellOf, SlotSound, IsVictim, IsOldest;
      v := FindVictim();
      assert SlotSound(View()[v], hash);
      BufferSize(View()[v], hash);
      WriteSlot(v, key, true, e);
      evicted := InsertRefines(old(View()), View(), hash, v, key, e);
      if evicted.Some? {
        log := log + [Removed(evicted.value)];
        ReplaySnoc(old(log), Removed(evicted.value));
      }
      ReplaySnoc(log, Stored(key, e));
      log := log + [Stored(key, e)];
    }

    /** The entry of a key, in its own slot or in a new one. */
    method Save(key: Bytes, e: Entry) returns (i: nat, ghost evicted: Option<Bytes>)
      requires Valid() && |key| <= MAX_KEY_LENGTH
      modifies headers, bodies, this`log
      ensures Valid() && i < MAX_ENTRIES
      ensures evicted.Some? <==> key !in old(Map()) && |old(Map())| == MAX_ENTRIES
      ensures evicted.None? ==> Map() == old(Map())[key := e] && log == old(log) + [Stored(key, e)]
      ensures evicted.Some? ==>
                && IsOldest(old(Map()), evicted.value)
                && Map() == (old(Map()) - {evicted.value})[key := e]
                && log == old(log) + [Removed(evicted.value)] + [Stored(key, e)]
    {
      hide Contents, Replay, Sound, KeyOf, CellOf, IsOldest;
      evicted := None;
      var found := Probe(key);
      if found.Some? {
        i := found.value;
        Update(i, key, e);
      } else {
        i, evicted := Insert(key, e);
      }
    }

    /** A response is refused, or becomes the entry of its key. Another entry gives way only when
        the cache holds eight others, and it is one of minimal date. */
    method Store(key: Bytes, h: CacheRules.Headers, now: real, p: Parsers, headerSize: nat, bodySize: nat)
      returns (r: StoreResult, ghost evicted: Option<Bytes>)
      requires Valid() && |key| <= MAX_KEY_LENGTH
      modifies this, headers, bodies
      ensures Valid()
      ensures r.Saved? || r.Raised? ==>
                headerSize <= MAX_HEADER_SIZE && bodySize <= MAX_BODY_SIZE && ParseDate(h.date, now, p) != UNKNOWN
      ensures r.Saved? ==> DetermineExpiry(h, now, p).At? && DetermineExpiry(h, now, p).time != UNKNOWN
      ensures r.Raised? ==> DetermineExpiry(h, now, p).OutOfRange?
      ensures r.Refused? ==>
                || headerSize > MAX_HEADER_SIZE || bodySize > MAX_BODY_SIZE || ParseDate(h.date, now, p) == UNKNOWN
                || DetermineExpiry(h, now, p) == At(UNKNOWN)
      ensures !r.Saved? ==> Map() == old(Map()) && log == old(log) && evicted.None?
      ensures r.Saved? ==> r.index < MAX_ENTRIES
      ensures r.Saved? ==> (evicted.Some? <==> key !in old(Map()) && |old(Map())| == MAX_ENTRIES)
      ensures r.Saved? && evicted.None? ==>
                var expiry := DetermineExpiry(h, now, p).time;
                var e := Entry(ParseDate(h.date, now, p), expiry, headerSize, bodySize, old(nextSerial));
                Map() == old(Map())[key := e] && log == old(log) + [Stored(key, e)]
      ensures r.Saved? && evicted.Some? ==>
                var expiry := DetermineExpiry(h, now, p).time;
                var e := Entry(ParseDate(h.date, now, p), expiry, headerSize, bodySize, old(nextSerial));
                && IsOldest(old(Map()), evicted.value)
                && Map() == (old(Map()) - {evicted.value})[key := e]
                && log == old(log) + [Removed(evicted.value)] + [Stored(key, e)]
      ensures stores == (old(stores) + 1) % UINT_RANGE
      ensures storeSuccesses == (old(storeSuccesses) + if r.Saved? then 1 else 0) % UINT_RANGE
    {
      hide Contents, Replay, Sound, KeyOf, CellOf, IsOldest, ParseDate, DetermineExpiry;
      evicted := None;
      stores := (stores + 1) % UINT_RANGE;
      if headerSize > MAX_HEADER_SIZE || bodySize > MAX_BODY_SIZE {
        return Refused, None;
      }
      var date := ParseDate(h.date, now, p);
      if date == UNKNOWN {
        return Refused, None;
      }
      var expiry := DetermineExpiry(h, now, p);
      if expiry.OutOfRange? {
        return Raised, None;
      }
      if expiry.time == UNKNOWN {
        return Refused, None;
      }
      var i;
      i, evicted := Save(key, Entry(date, expiry.time, headerSize, bodySize, nextSerial));
      nextSerial := nextSerial + 1;
      storeSuccesses := (storeSuccesses + 1) % UINT_RANGE;
      r := Saved(i);
    }

    method InvalidateKey(key: Bytes)
      requires Valid()
      modifies headers, this`log
      ensures Valid() && Map() == old(Map()) - {key}
      ensures log == if key in old(Map()) then old(log) + [Removed(key)] else old(log)
    {
      var entry := Probe(key);
      if entry.Some? {
        Erase(entry.value);
      }
    }

    /** invalidateLocation */
    method InvalidateLocation(value: Option<Bytes>, s: Subject, parse: UrlParser)
      requires Valid()
      modifies headers, this`log
      ensures Valid() && Map() == old(Map()) - LocatedKeys(value, s, parse)
      ensures OnlyRemoved(old(log), log, LocatedKeys(value, s, parse))
    {
      hide Contents, Replay, Distinct, KeyOf, CellOf, Sound, Located, Key;
      var t := Located(value, s, parse);
      if t.Some? && |Key(t.value)| <= MAX_KEY_LENGTH {
        InvalidateKey(Key(t.value));
      }
    }

    /** The request's own entry, and those that the Location and Content-Location headers name. */
    method Invalidate(s: Subject, location: Option<Bytes>, contentLocation: Option<Bytes>, parse: UrlParser)
      requires Valid()
      modifies headers, this`log
      ensures Valid()
      ensures Map() == old(Map()) - InvalidatedKeys(s, location, contentLocation, parse)
      ensures OnlyRemoved(old(log), log, InvalidatedKeys(s, location, contentLocation, parse))
    {
      hide Contents, Replay, Distinct, KeyOf, CellOf, Sound, LocatedKeys, Key;
      InvalidateKey(Key(s));
      InvalidateLocation(location, s, parse);
      InvalidateLocation(contentLocation, s, parse);
    }
  }

  function InvalidatedKeys(s: Subject, location: Option<Bytes>, contentLocation: Option<Bytes>, parse: UrlParser)
    : set<Bytes>
  {
    {Key(s)} + LocatedKeys(location, s, parse) + LocatedKeys(contentLocation, s, parse)
  }

  /** The history goes on, with removals of these keys and nothing else. */
  predicate OnlyRemoved(before: seq<Op>, after: seq<Op>, keys: set<Bytes>) {
    && before <= after
    && forall i | |before| <= i < |after| :: after[i].Removed? && after[i].key in keys
  }

  /** A response is saved in a slot, not saved, or its headers raise an exception. */
  datatype StoreResult = Saved(index: nat) | Refused | Raised
}

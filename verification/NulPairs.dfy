/**
  Environment variables and request headers travel between the web server modules, the agent and
  the application loaders as keys and values that each end in a NUL. Two printers and two parsers of
  that format exist in the repository: the printers of the Nginx and Apache modules, and the parsers of
  the Ruby extension and the Python loader.
 */
module NulPairsModel {
  import opened Basics

  type Pair = (Bytes, Bytes)

  predicate NulFree(s: Bytes) {
    forall i | 0 <= i < |s| :: s[i] != 0
  }

  function Print(pairs: seq<Pair>): Bytes {
    if pairs == [] then [] else Print(pairs[..|pairs| - 1]) + PrintOne(pairs[|pairs| - 1])
  }

  function PrintOne(p: Pair): Bytes {
    p.0 + [0] + p.1 + [0]
  }

  // ----- fields

  /** The position of the first NUL, or the length. */
  function FirstNul(s: Bytes): (k: nat)
    ensures k <= |s| && NulFree(s[..k])
    ensures k < |s| ==> s[k] == 0
  {
    if s == [] || s[0] == 0 then 0 else 1 + FirstNul(s[1..])
  }

  /** The fields of `s` that end in a NUL; bytes after the last NUL belong to none. */
  function Fields(s: Bytes): seq<Bytes> {
    var k := FirstNul(s);
    if k == |s| then [] else [s[..k]] + Fields(s[k + 1..])
  }

  function Nuls(s: Bytes): nat {
    if s == [] then 0 else (if s[0] == 0 then 1 else 0) + Nuls(s[1..])
  }

  /** The map of a list of fields, later keys winning; an odd field at the end is dropped. */
  function MapOf(fields: seq<Bytes>): map<Bytes, Bytes> {
    if |fields| < 2 then map[] else map[fields[0] := fields[1]] + MapOf(fields[2..])
  }

  lemma {:induction false} FirstNulAt(field: Bytes, rest: Bytes)
    requires NulFree(field)
    ensures FirstNul(field + [0] + rest) == |field|
    decreases |field|
  {
    if field != [] {
      assert (field + [0] + rest)[1..] == field[1..] + [0] + rest;
      FirstNulAt(field[1..], rest);
    }
  }

  lemma FieldsCons(field: Bytes, rest: Bytes)
    requires NulFree(field)
    ensures Fields(field + [0] + rest) == [field] + Fields(rest)
  {
    var s := field + [0] + rest;
    FirstNulAt(field, rest);
    assert s[..|field|] == field && s[|field| + 1..] == rest;
  }

  lemma FieldsNone(s: Bytes)
    requires NulFree(s)
    ensures Fields(s) == []
  {
  }

  lemma {:induction false} NulsBehind(field: Bytes, rest: Bytes)
    requires NulFree(field)
    ensures Nuls(field + rest) == Nuls(rest)
    decreases |field|
  {
    if field == [] {
      assert field + rest == rest;
    } else {
      assert (field + rest)[1..] == field[1..] + rest;
      NulsBehind(field[1..], rest);
    }
  }

  lemma {:induction false} FieldsAreNuls(s: Bytes)
    ensures |Fields(s)| == Nuls(s)
    decreases |s|
  {
    var k := FirstNul(s);
    NulsBehind(s[..k], s[k..]);
    assert s[..k] + s[k..] == s;
    if k < |s| {
      assert s[k..][1..] == s[k + 1..];
      FieldsAreNuls(s[k + 1..]);
    } else {
      assert s[k..] == [];
    }
  }

  lemma {:induction false} MapOfSnoc(fields: seq<Bytes>, k: Bytes, v: Bytes)
    requires |fields| % 2 == 0
    ensures MapOf(fields + [k, v]) == MapOf(fields)[k := v]
    decreases |fields|
  {
    var more := fields + [k, v];
    if fields == [] {
      assert more == [k, v] && more[2..] == [];
    } else {
      assert more[2..] == fields[2..] + [k, v] && more[0] == fields[0] && more[1] == fields[1];
      MapOfSnoc(fields[2..], k, v);
      MergeUpdate(map[fields[0] := fields[1]], MapOf(fields[2..]), k, v);
    }
  }

  lemma MergeUpdate(a: map<Bytes, Bytes>, b: map<Bytes, Bytes>, k: Bytes, v: Bytes)
    ensures a + b[k := v] == (a + b)[k := v]
  {
  }

  lemma {:induction false} MapOfOdd(fields: seq<Bytes>, k: Bytes)
    requires |fields| % 2 == 0
    ensures MapOf(fields + [k]) == MapOf(fields)
    decreases |fields|
  {
    if fields != [] {
      assert (fields + [k])[2..] == fields[2..] + [k];
      MapOfOdd(fields[2..], k);
    }
  }

  // ----- printing and splitting

  function Flat(pairs: seq<Pair>): seq<Bytes> {
    if pairs == [] then [] else [pairs[0].0, pairs[0].1] + Flat(pairs[1..])
  }

  lemma {:induction false} PrintUnfolds(pairs: seq<Pair>)
    requires pairs != []
    ensures Print(pairs) == PrintOne(pairs[0]) + Print(pairs[1..])
    decreases |pairs|
  {
    var n := |pairs| - 1;
    if n == 0 {
      assert pairs[..0] == [] && pairs[1..] == [];
    } else {
      PrintUnfolds(pairs[..n]);
      assert pairs[..n][1..] == pairs[1..][..n - 1];
      assert pairs[1..][n - 1] == pairs[n];
      hide Print, PrintOne;
      var a, b, c := PrintOne(pairs[0]), Print(pairs[..n][1..]), PrintOne(pairs[n]);
      assert Print(pairs) == (a + b) + c == a + (b + c);
    }
  }

  ghost predicate Clean(pairs: seq<Pair>) {
    forall i | 0 <= i < |pairs| :: NulFree(pairs[i].0) && NulFree(pairs[i].1)
  }

  lemma FieldsOfOne(p: Pair, rest: Bytes)
    requires NulFree(p.0) && NulFree(p.1)
    ensures Fields(PrintOne(p) + rest) == [p.0, p.1] + Fields(rest)
  {
    hide Fields;
    var behind := p.1 + [0] + rest;
    assert PrintOne(p) + rest == p.0 + [0] + behind;
    FieldsCons(p.0, behind);
    FieldsCons(p.1, rest);
    assert [p.0] + ([p.1] + Fields(rest)) == [p.0, p.1] + Fields(rest);
  }

  lemma {:induction false} FieldsOfPrint(pairs: seq<Pair>)
    requires Clean(pairs)
    ensures Fields(Print(pairs)) == Flat(pairs)
    decreases |pairs|
  {
    if pairs == [] {
      FieldsNone([]);
    } else {
      PrintUnfolds(pairs);
      hide Fields, PrintOne, Print;
      FieldsOfOne(pairs[0], Print(pairs[1..]));
      FieldsOfPrint(pairs[1..]);
    }
  }

  /** The value of each key is that of its last pair. */
  ghost predicate LastWins(pairs: seq<Pair>, m: map<Bytes, Bytes>) {
    && (forall i | 0 <= i < |pairs| :: pairs[i].0 in m)
    && (forall k | k in m :: exists i :: IsLast(pairs, k, i) && m[k] == pairs[i].1)
  }

  ghost predicate IsLast(pairs: seq<Pair>, key: Bytes, i: int) {
    && 0 <= i < |pairs| && pairs[i].0 == key
    && forall j | i < j < |pairs| :: pairs[j].0 != key
  }

  lemma {:induction false} FlatSnoc(pairs: seq<Pair>, p: Pair)
    ensures Flat(pairs + [p]) == Flat(pairs) + [p.0, p.1]
    ensures |Flat(pairs)| == 2 * |pairs|
    decreases |pairs|
  {
    if pairs == [] {
      assert Flat([p]) == [p.0, p.1] + Flat([]);
    } else {
      assert (pairs + [p])[1..] == pairs[1..] + [p];
      FlatSnoc(pairs[1..], p);
    }
  }

  lemma {:induction false} MapOfFlat(pairs: seq<Pair>)
    ensures LastWins(pairs, MapOf(Flat(pairs)))
    decreases |pairs|
  {
    if pairs != [] {
      var n := |pairs| - 1;
      var before, p := pairs[..n], pairs[n];
      assert pairs == before + [p];
      MapOfFlat(before);
      FlatSnoc(before, p);
      MapOfSnoc(Flat(before), p.0, p.1);
      SnocWins(before, p, MapOf(Flat(before)));
    }
  }

  lemma SnocWins(pairs: seq<Pair>, p: Pair, m: map<Bytes, Bytes>)
    requires LastWins(pairs, m)
    ensures LastWins(pairs + [p], m[p.0 := p.1])
  {
    var more, m2 := pairs + [p], m[p.0 := p.1];
    forall k | k in m2 ensures exists i :: IsLast(more, k, i) && m2[k] == more[i].1 {
      if k == p.0 {
        assert IsLast(more, k, |pairs|);
      } else {
        var i :| IsLast(pairs, k, i) && m[k] == pairs[i].1;
        assert IsLast(more, k, i);
      }
    }
  }

  // ----- the two parsers

  /** What the C splitter returns. */
  function Split(data: Bytes): map<Bytes, Bytes> {
    MapOf(Fields(data))
  }

  /** What the Python parser returns; None stands for the IndexError it raises on a key without a
      value. */
  function ParseHeaders(data: Bytes): Option<map<Bytes, Bytes>> {
    if |Fields(data)| % 2 == 0 then Some(Split(data)) else None
  }

  /** On every byte string: the Python parser fails if and only if the number of NULs is odd, and
      otherwise agrees with the C splitter, which drops the key without a value. */
  lemma {:induction false} ParsersAgreeIff(data: Bytes)
    ensures ParseHeaders(data) == if Nuls(data) % 2 == 0 then Some(Split(data)) else None
  {
    FieldsAreNuls(data);
  }

  /** Printing and parsing again gives back the pairs, later duplicates winning, in both. */
  lemma RoundTrip(pairs: seq<Pair>)
    requires Clean(pairs)
    ensures LastWins(pairs, Split(Print(pairs)))
    ensures ParseHeaders(Print(pairs)) == Some(Split(Print(pairs)))
  {
    hide Fields, Print, MapOf, Flat, LastWins;
    FieldsOfPrint(pairs);
    MapOfFlat(pairs);
    FlatSnoc(pairs, ([], []));
  }

  // ----- NULs inside keys and values

  /** The NULs that are not separators. */
  function Inside(pairs: seq<Pair>): nat {
    if pairs == [] then 0 else Nuls(pairs[0].0) + Nuls(pairs[0].1) + Inside(pairs[1..])
  }

  lemma {:induction false} NulsAppend(a: Bytes, b: Bytes)
    ensures Nuls(a + b) == Nuls(a) + Nuls(b)
    decreases |a|
  {
    if a == [] {
      assert a + b == b;
    } else {
      assert (a + b)[1..] == a[1..] + b;
      NulsAppend(a[1..], b);
    }
  }

  lemma {:induction false} NulsNoneIff(s: Bytes)
    ensures Nuls(s) == 0 <==> NulFree(s)
    decreases |s|
  {
    if s != [] {
      NulsNoneIff(s[1..]);
      assert s == [s[0]] + s[1..];
    }
  }

  lemma NulsOfOne(p: Pair)
    ensures Nuls(PrintOne(p)) == Nuls(p.0) + Nuls(p.1) + 2
  {
    assert Nuls([0]) == 1;
    hide Nuls;
    NulsAppend(p.0, [0]);
    NulsAppend(p.0 + [0], p.1);
    NulsAppend(p.0 + [0] + p.1, [0]);
  }

  lemma {:induction false} NulsOfPrint(pairs: seq<Pair>)
    ensures Nuls(Print(pairs)) == 2 * |pairs| + Inside(pairs)
    decreases |pairs|
  {
    if pairs != [] {
      PrintUnfolds(pairs);
      NulsOfOne(pairs[0]);
      NulsOfPrint(pairs[1..]);
      hide Nuls, Print, PrintOne;
      NulsAppend(PrintOne(pairs[0]), Print(pairs[1..]));
    }
  }

  lemma {:induction false} InsideNoneIff(pairs: seq<Pair>)
    ensures Inside(pairs) == 0 <==> Clean(pairs)
    decreases |pairs|
  {
    if pairs != [] {
      InsideNoneIff(pairs[1..]);
      NulsNoneIff(pairs[0].0);
      NulsNoneIff(pairs[0].1);
      hide Nuls, NulFree;
      assert pairs == [pairs[0]] + pairs[1..];
      assert Clean(pairs) <==> NulFree(pairs[0].0) && NulFree(pairs[0].1) && Clean(pairs[1..]);
    }
  }

  /** For every list of pairs: the fields that are read back are those that were printed if and only
      if no key and no value holds a NUL, and the Python parser fails if and only if the NULs inside
      keys and values are odd in number. */
  lemma PrintedFieldsIff(pairs: seq<Pair>)
    ensures Fields(Print(pairs)) == Flat(pairs) <==> Clean(pairs)
    ensures ParseHeaders(Print(pairs)).None? <==> Inside(pairs) % 2 == 1
  {
    hide Fields, Print, Flat, Inside, Clean, Nuls, MapOf;
    FieldsAreNuls(Print(pairs));
    NulsOfPrint(pairs);
    InsideNoneIff(pairs);
    FlatSnoc(pairs, ([], []));
    if Clean(pairs) {
      FieldsOfPrint(pairs);
    }
  }

  lemma {:induction false} FieldsAreNulFree(s: Bytes)
    ensures forall i | 0 <= i < |Fields(s)| :: NulFree(Fields(s)[i])
    decreases |s|
  {
    var k := FirstNul(s);
    if k < |s| {
      FieldsAreNulFree(s[k + 1..]);
    }
  }

  lemma {:induction false} MapIsNulFree(fields: seq<Bytes>)
    requires forall i | 0 <= i < |fields| :: NulFree(fields[i])
    ensures forall k | k in MapOf(fields) :: NulFree(k) && NulFree(MapOf(fields)[k])
    decreases |fields|
  {
    if |fields| >= 2 {
      hide NulFree;
      var rest := fields[2..];
      assert forall i | 0 <= i < |rest| :: rest[i] == fields[i + 2];
      MapIsNulFree(rest);
    }
  }

  /** A key that holds a NUL, or a value that does and is the last one for its key, is lost. */
  lemma NulIsLost(pairs: seq<Pair>, i: nat)
    requires LastWins(pairs, Split(Print(pairs))) && i < |pairs|
    ensures NulFree(pairs[i].0)
    ensures IsLast(pairs, pairs[i].0, i) ==> NulFree(pairs[i].1)
  {
    hide NulFree, Fields, MapOf, Print, LastWins, IsLast;
    FieldsAreNulFree(Print(pairs));
    MapIsNulFree(Fields(Print(pairs)));
    NulFreeMapLoses(pairs, Split(Print(pairs)), i);
  }

  lemma NulFreeMapLoses(pairs: seq<Pair>, m: map<Bytes, Bytes>, i: nat)
    requires LastWins(pairs, m) && i < |pairs|
    requires forall k | k in m :: NulFree(k) && NulFree(m[k])
    ensures NulFree(pairs[i].0)
    ensures IsLast(pairs, pairs[i].0, i) ==> NulFree(pairs[i].1)
  {
    hide NulFree;
    var key := pairs[i].0;
    assert key in m;
    var j :| IsLast(pairs, key, j) && m[key] == pairs[j].1;
    assert j > i ==> pairs[j].0 == key;
  }

  /** So a single pair survives if and only if it is free of NULs. */
  lemma OnePairSurvivesIff(p: Pair)
    ensures LastWins([p], Split(Print([p]))) <==> NulFree(p.0) && NulFree(p.1)
  {
    if LastWins([p], Split(Print([p]))) {
      NulIsLost([p], 0);
      assert IsLast([p], p.0, 0);
    }
    if NulFree(p.0) && NulFree(p.1) {
      assert Clean([p]);
      RoundTrip([p]);
    }
  }

  /** But a value with NULs inside may do no harm when a later pair overrides all that it leaves. */
  lemma OverriddenNulsDoNoHarm(a: Bytes, b: Bytes, c: Bytes, d: Bytes)
    requires NulFree(a) && NulFree(b) && NulFree(c) && NulFree(d)
    ensures
      var pairs := [(a, b + [0] + a + [0] + c), (a, d)];
      LastWins(pairs, Split(Print(pairs))) && !Clean(pairs)
  {
    var v := b + [0] + a + [0] + c;
    var pairs: seq<Pair> := [(a, v), (a, d)];
    assert v[|b|] == 0 && !NulFree(v) && pairs[0].1 == v;
    var clean: seq<Pair> := [(a, b), (a, c), (a, d)];
    assert Print(pairs) == Print(clean) by {
      TwoPairs((a, v), (a, d));
      ThreePairs((a, b), (a, c), (a, d));
      assert PrintOne((a, v)) == PrintOne((a, b)) + PrintOne((a, c));
    }
    assert Clean(clean);
    RoundTrip(clean);
    OverrideWins(clean, pairs, Split(Print(clean)));
  }

  lemma TwoPairs(p: Pair, q: Pair)
    ensures Print([p, q]) == PrintOne(p) + PrintOne(q)
  {
    PrintUnfolds([p, q]);
    PrintUnfolds([q]);
    assert [p, q][1..] == [q] && [q][1..] == [];
    assert Print([]) == [];
  }

  lemma ThreePairs(p: Pair, q: Pair, r: Pair)
    ensures Print([p, q, r]) == PrintOne(p) + PrintOne(q) + PrintOne(r)
  {
    PrintUnfolds([p, q, r]);
    assert [p, q, r][1..] == [q, r];
    hide Print, PrintOne;
    TwoPairs(q, r);
  }

  lemma OverrideWins(clean: seq<Pair>, pairs: seq<Pair>, m: map<Bytes, Bytes>)
    requires |clean| == 3 && |pairs| == 2 && clean[2] == pairs[1] && pairs[0].0 == pairs[1].0
    requires clean[0].0 == clean[1].0 == clean[2].0 && LastWins(clean, m)
    ensures LastWins(pairs, m)
  {
    forall k | k in m ensures exists i :: IsLast(pairs, k, i) && m[k] == pairs[i].1 {
      var i :| IsLast(clean, k, i) && m[k] == clean[i].1;
      assert i == 2;
      assert IsLast(pairs, k, 1);
    }
    assert clean[2].0 in m;
  }

  // ----- length-prefixed requests

  function BigEndian(b: Bytes): nat
    requires |b| == 4
  {
    var b0: int, b1: int, b2: int, b3: int := b[0], b[1], b[2], b[3];
    ((b0 * 256 + b1) * 256 + b2) * 256 + b3
  }

  function SizeBytes(n: nat): (b: Bytes)
    requires n < 0x1_0000_0000
    ensures |b| == 4 && BigEndian(b) == n
  {
    var high := n / 256;
    var higher := high / 256;
    [higher / 256, higher % 256, high % 256, n % 256]
  }

  /** The most significant byte comes first. */
  lemma BigEndianOrder(b: Bytes)
    requires |b| == 4
    ensures BigEndian(b) == b[0] as int * 0x100_0000 + b[1] as int * 0x1_0000 + b[2] as int * 0x100 + b[3] as int
  {
  }

  /** How reading one request ends. */
  datatype Outcome = Closed | Raised | Env(env: map<Bytes, Bytes>)

  /** The request at the front of a stream, and what is left of the stream. */
  function Request(stream: Bytes): (Outcome, Bytes) {
    if |stream| < 4 then (Closed, [])
    else
      var size := BigEndian(stream[..4]);
      if |stream| - 4 < size then (Closed, [])
      else
        var parsed := ParseHeaders(stream[4..4 + size]);
        (if parsed.Some? then Env(parsed.value) else Raised, stream[4 + size..])
  }

  /** A request that was sent is read as it was sent, and nothing behind it is touched. */
  lemma RequestArrives(pairs: seq<Pair>, rest: Bytes)
    requires Clean(pairs) && |Print(pairs)| < 0x1_0000_0000
    ensures
      var (outcome, left) := Request(SizeBytes(|Print(pairs)|) + Print(pairs) + rest);
      outcome.Env? && LastWins(pairs, outcome.env) && left == rest
  {
    var data := Print(pairs);
    var stream := SizeBytes(|data|) + data + rest;
    assert stream[..4] == SizeBytes(|data|);
    assert stream[4..4 + |data|] == data && stream[4 + |data|..] == rest;
    RoundTrip(pairs);
  }
}

module NulPairs {
  import opened Basics
  import opened NulPairsModel

  // ----- printers

  function PrintedSize(pairs: seq<Pair>): nat {
    if pairs == [] then 0
    else PrintedSize(pairs[..|pairs| - 1]) + |pairs[|pairs| - 1].0| + 1 + |pairs[|pairs| - 1].1| + 1
  }

  lemma {:induction false} SizeIsExact(pairs: seq<Pair>)
    ensures |Print(pairs)| == PrintedSize(pairs)
    decreases |pairs|
  {
    if pairs != [] {
      SizeIsExact(pairs[..|pairs| - 1]);
    }
  }

  lemma {:induction false} PrefixIsShorter(pairs: seq<Pair>, i: nat)
    requires i < |pairs|
    ensures Print(pairs[..i + 1]) == Print(pairs[..i]) + PrintOne(pairs[i])
    ensures |Print(pairs[..i + 1])| <= |Print(pairs)|
    decreases |pairs|
  {
    assert pairs[..i + 1][..i] == pairs[..i];
    if i + 1 < |pairs| {
      var shorter := pairs[..|pairs| - 1];
      PrefixIsShorter(shorter, i);
      assert shorter[..i + 1] == pairs[..i + 1];
    } else {
      assert pairs[..i + 1] == pairs;
    }
  }

  /** Copies a string to a position in the buffer and returns the position behind it. */
  method Copy(buf: array<Byte>, pos: nat, s: Bytes) returns (next: nat)
    requires pos + |s| <= buf.Length
    modifies buf
    ensures next == pos + |s|
    ensures buf[..next] == old(buf[..pos]) + s
  {
    var i := 0;
    while i < |s|
      invariant 0 <= i <= |s|
      invariant buf[..pos + i] == old(buf[..pos]) + s[..i]
    {
      buf[pos + i] := s[i];
      assert buf[..pos + (i + 1)] == buf[..pos + i] + [s[i]];
      i := i + 1;
    }
    next := pos + i;
  }

  /** Copies one pair and its two NULs. */
  method CopyPair(buf: array<Byte>, pos: nat, p: Pair) returns (next: nat)
    requires pos + |PrintOne(p)| <= buf.Length
    modifies buf
    ensures next == pos + |PrintOne(p)|
    ensures buf[..next] == old(buf[..pos]) + PrintOne(p)
  {
    next := Copy(buf, pos, p.0);
    next := Copy(buf, next, [0]);
    next := Copy(buf, next, p.1);
    next := Copy(buf, next, [0]);
  }

  /** The first pass. */
  method Measure(pairs: seq<Pair>) returns (len: nat)
    ensures len == |Print(pairs)|
  {
    len := 0;
    for i := 0 to |pairs|
      invariant len == PrintedSize(pairs[..i])
    {
      assert pairs[..i + 1][..i] == pairs[..i];
      len := len + (|pairs[i].0| + 1 + |pairs[i].1| + 1);
    }
    assert pairs[..|pairs|] == pairs;
    SizeIsExact(pairs);
  }

  /** The Nginx module: the length first, then the bytes into a buffer of just that length. */
  method SerializeEnvVars(pairs: seq<Pair>) returns (buf: array<Byte>)
    ensures buf[..] == Print(pairs)
  {
    hide PrintOne;
    var len := Measure(pairs);
    buf := new Byte[len];
    var pos := 0;
    for i := 0 to |pairs|
      invariant 0 <= pos <= buf.Length == |Print(pairs)|
      invariant buf[..pos] == Print(pairs[..i])
    {
      PrefixIsShorter(pairs, i);
      assert |Print(pairs[..i])| == pos;
      pos := CopyPair(buf, pos, pairs[i]);
    }
    assert pairs[..|pairs|] == pairs;
    assert pos == buf.Length;
  }

  const SCRIPT_NAME: Bytes := [83, 67, 82, 73, 80, 84, 95, 78, 65, 77, 69]
  const PATH_INFO: Bytes := [80, 65, 84, 72, 95, 73, 78, 70, 79]

  /** The variables that the Apache module passes on; a missing value counts as empty. */
  function Passed(table: seq<(Bytes, Option<Bytes>)>): seq<Pair> {
    if table == [] then []
    else
      var e := table[|table| - 1];
      Passed(table[..|table| - 1]) +
      if e.0 == SCRIPT_NAME || e.0 == PATH_INFO then []
      else [(e.0, ValueOf(e))]
  }

  function ValueOf(e: (Bytes, Option<Bytes>)): Bytes {
    if e.1.Some? then e.1.value else []
  }

  lemma PassedNext(table: seq<(Bytes, Option<Bytes>)>, i: nat)
    requires i < |table|
    ensures Print(Passed(table[..i + 1])) == Print(Passed(table[..i])) +
      if table[i].0 == SCRIPT_NAME || table[i].0 == PATH_INFO then [] else PrintOne((table[i].0, ValueOf(table[i])))
  {
    assert table[..i + 1][..i] == table[..i];
    var before, p := Passed(table[..i]), (table[i].0, ValueOf(table[i]));
    hide Passed, PrintOne;
    assert before + [] == before;
    assert (before + [p])[..|before|] == before;
  }

  lemma AppendedPair(data: Bytes, k: Bytes, v: Bytes)
    ensures data + k + [0] + v + [0] == data + PrintOne((k, v))
  {
  }

  /** One variable, in four appends. */
  method AppendPair(data: Bytes, e: (Bytes, Option<Bytes>)) returns (r: Bytes)
    ensures r == data + PrintOne((e.0, ValueOf(e)))
  {
    hide PrintOne;
    AppendedPair(data, e.0, ValueOf(e));
    r := data + e.0;
    r := r + [0];
    if e.1.Some? {
      r := r + e.1.value;
    } else {
      assert r + ValueOf(e) == r;
    }
    r := r + [0];
  }

  /** The Apache module: one append after another. */
  method AppendEnvVars(table: seq<(Bytes, Option<Bytes>)>) returns (data: Bytes)
    ensures data == Print(Passed(table))
  {
    data := [];
    var i := 0;
    while i < |table|
      invariant 0 <= i <= |table|
      invariant data == Print(Passed(table[..i]))
    {
      hide Print, Passed, PrintOne, ValueOf;
      PassedNext(table, i);
      if table[i].0 == SCRIPT_NAME || table[i].0 == PATH_INFO {
        assert data + [] == data;
        i := i + 1;
        continue;
      }
      data := AppendPair(data, table[i]);
      i := i + 1;
    }
    assert table[..i] == table;
  }

  lemma {:induction false} PassedHides(table: seq<(Bytes, Option<Bytes>)>, i: nat)
    requires i < |Passed(table)|
    ensures Passed(table)[i].0 != SCRIPT_NAME && Passed(table)[i].0 != PATH_INFO
    ensures exists j :: 0 <= j < |table| && table[j].0 == Passed(table)[i].0
    decreases |table|
  {
    var n := |table| - 1;
    var before := Passed(table[..n]);
    if i < |before| {
      PassedHides(table[..n], i);
      var j :| 0 <= j < n && table[..n][j].0 == before[i].0;
      assert table[j].0 == Passed(table)[i].0;
    } else {
      assert table[n].0 == Passed(table)[i].0;
    }
  }

  /** How many variables of the table are passed on. */
  function KeptCount(table: seq<(Bytes, Option<Bytes>)>): nat {
    if table == [] then 0
    else KeptCount(table[1..]) + if table[0].0 == SCRIPT_NAME || table[0].0 == PATH_INFO then 0 else 1
  }

  lemma {:induction false} KeptCountSnoc(table: seq<(Bytes, Option<Bytes>)>, e: (Bytes, Option<Bytes>))
    ensures KeptCount(table + [e]) == KeptCount(table) + if e.0 == SCRIPT_NAME || e.0 == PATH_INFO then 0 else 1
    decreases |table|
  {
    if table == [] {
      assert table + [e] == [e] && [e][1..] == [];
    } else {
      assert (table + [e])[1..] == table[1..] + [e];
      KeptCountSnoc(table[1..], e);
    }
  }

  /** Every variable but the two is passed on, in its place, with its own value or else an empty one;
      and nothing else is. */
  lemma {:induction false} PassedKeepsOthers(table: seq<(Bytes, Option<Bytes>)>)
    ensures |Passed(table)| == KeptCount(table)
    ensures forall i | 0 <= i < |table| && table[i].0 != SCRIPT_NAME && table[i].0 != PATH_INFO ::
              && KeptCount(table[..i]) < |Passed(table)|
              && Passed(table)[KeptCount(table[..i])].0 == table[i].0
              && Passed(table)[KeptCount(table[..i])].1 == if table[i].1.Some? then table[i].1.value else []
    decreases |table|
  {
    if table != [] {
      var n := |table| - 1;
      var before := table[..n];
      assert table == before + [table[n]];
      KeptCountSnoc(before, table[n]);
      PassedKeepsOthers(before);
      forall i | 0 <= i < n ensures before[..i] == table[..i] && before[i] == table[i] {
      }
    }
  }

  // ----- parsers

  lemma {:induction false} MapOfTake(fields: seq<Bytes>, i: nat)
    requires i + 1 < |fields| && i % 2 == 0
    ensures MapOf(fields[..i + 2]) == MapOf(fields[..i])[fields[i] := fields[i + 1]]
  {
    assert fields[..i + 2] == fields[..i] + [fields[i], fields[i + 1]];
    MapOfSnoc(fields[..i], fields[i], fields[i + 1]);
  }

  /** `done` fields lie before `begin`, and `begin` starts the next one. */
  ghost predicate SplitAt(data: Bytes, begin: nat, done: seq<Bytes>) {
    begin <= |data| && Fields(data) == done + Fields(data[begin..])
  }

  lemma NextField(data: Bytes, begin: nat, current: nat, done: seq<Bytes>)
    requires SplitAt(data, begin, done) && begin <= current < |data|
    requires data[current] == 0 && NulFree(data[begin..current])
    ensures SplitAt(data, current + 1, done + [data[begin..current]])
  {
    hide Fields, NulFree;
    var field, rest := data[begin..current], data[current + 1..];
    assert data[begin..] == field + [0] + rest;
    FieldsCons(field, rest);
    assert done + ([field] + Fields(rest)) == (done + [field]) + Fields(rest);
  }

  lemma NoMoreFields(data: Bytes, begin: nat, done: seq<Bytes>)
    requires SplitAt(data, begin, done) && NulFree(data[begin..])
    ensures Fields(data) == done
  {
  }

  /** One step of a scan inside a field. */
  lemma ScanOn(data: Bytes, begin: nat, current: nat)
    requires begin <= current < |data| && data[current] != 0 && NulFree(data[begin..current])
    ensures NulFree(data[begin..current + 1])
  {
    assert data[begin..current + 1] == data[begin..current] + [data[current]];
  }

  /** split_by_null_into_hash, with its scanning positions. */
  method SplitByNull(data: Bytes) returns (result: map<Bytes, Bytes>)
    ensures result == Split(data)
  {
    hide Fields, MapOf, NulFree;
    var begin, current, end := 0, 0, |data|;
    result := map[];
    ghost var done: seq<Bytes> := [];
    Start(data);
    while current < end
      invariant 0 <= begin <= current <= end
      invariant NulFree(data[begin..current])
      invariant SplitAt(data, begin, done)
      invariant result == MapOf(done)
      invariant |done| % 2 == 0 || current == end
      decreases end - current
    {
      if data[current] == 0 {
        var key := data[begin..current];
        NextField(data, begin, current, done);
        ghost var pairs := done;
        done := done + [key];
        MapOfOdd(pairs, key);
        current := current + 1;
        begin := current;
        Start([]);
        assert data[begin..current] == [];
        var found := false;
        while current < end && !found
          invariant 0 <= begin <= current <= end
          invariant NulFree(data[begin..current])
          invariant SplitAt(data, begin, done)
          invariant result == MapOf(done)
          invariant if found then |done| % 2 == 0 else done == pairs + [key]
          decreases end - current
        {
          if data[current] == 0 {
            var value := data[begin..current];
            NextField(data, begin, current, done);
            assert pairs + [key] + [value] == pairs + [key, value];
            MapOfSnoc(pairs, key, value);
            done := done + [value];
            current := current + 1;
            begin := current;
            Start([]);
            assert data[begin..current] == [];
            result := result[key := value];
            found := true;
          } else {
            ScanOn(data, begin, current);
            current := current + 1;
          }
        }
      } else {
        ScanOn(data, begin, current);
        current := current + 1;
      }
    }
    assert data[begin..current] == data[begin..];
    NoMoreFields(data, begin, done);
  }

  lemma Start(data: Bytes)
    ensures NulFree(data[0..0]) && NulFree([]) && SplitAt(data, 0, []) && MapOf([]) == map[]
  {
  }

  /** Python's split at NULs: one piece more than there are NULs. */
  method SplitAll(buf: Bytes) returns (pieces: seq<Bytes>)
    ensures pieces != [] && pieces[..|pieces| - 1] == Fields(buf)
  {
    hide Fields, NulFree;
    pieces := [];
    var begin, current := 0, 0;
    Start(buf);
    while current < |buf|
      invariant 0 <= begin <= current <= |buf|
      invariant NulFree(buf[begin..current])
      invariant SplitAt(buf, begin, pieces)
    {
      if buf[current] == 0 {
        NextField(buf, begin, current, pieces);
        pieces := pieces + [buf[begin..current]];
        begin := current + 1;
        assert buf[begin..current + 1] == [];
        Start([]);
      } else {
        ScanOn(buf, begin, current);
      }
      current := current + 1;
    }
    assert buf[begin..current] == buf[begin..];
    NoMoreFields(buf, begin, pieces);
    pieces := pieces + [buf[begin..]];
  }

  /** The loop over the headers; None when it runs past the end of the list. */
  method FillEnv(headers: seq<Bytes>) returns (env: Option<map<Bytes, Bytes>>)
    ensures env == if |headers| % 2 == 0 then Some(MapOf(headers)) else None
  {
    var m: map<Bytes, Bytes> := map[];
    var i := 0;
    while i < |headers|
      invariant 0 <= i <= |headers| && i % 2 == 0
      invariant m == MapOf(headers[..i])
    {
      if i + 1 >= |headers| {
        return None;
      }
      MapOfTake(headers, i);
      m := m[headers[i] := headers[i + 1]];
      i := i + 2;
    }
    assert headers[..i] == headers;
    return Some(m);
  }

  /** A connected socket. `pieces` is how the network happens to cut the stream. */
  class Client {
    var stream: Bytes
    var pieces: seq<nat>

    constructor (stream: Bytes, pieces: seq<nat>)
      ensures this.stream == stream && this.pieces == pieces
    {
      this.stream := stream;
      this.pieces := pieces;
    }

    /** At least one byte and at most `max`, or nothing at the end of the stream. */
    method Recv(max: nat) returns (tmp: Bytes)
      requires max > 0
      modifies this
      ensures tmp + stream == old(stream)
      ensures |tmp| <= max
      ensures tmp == [] <==> old(stream) == []
    {
      var n := if pieces == [] || pieces[0] == 0 then 1 else pieces[0];
      if pieces != [] {
        pieces := pieces[1..];
      }
      if n > max {
        n := max;
      }
      if n > |stream| {
        n := |stream|;
      }
      tmp := stream[..n];
      stream := stream[n..];
    }

    /** Reads until `size` bytes are there; fails when the stream ends before. */
    method RecvExactly(size: nat) returns (ok: bool, buf: Bytes)
      modifies this
      ensures ok <==> size <= |old(stream)|
      ensures ok ==> buf == old(stream)[..size] && stream == old(stream)[size..]
      ensures !ok ==> stream == []
    {
      buf := [];
      while |buf| < size
        invariant |buf| <= size && buf + stream == old(stream)
        decreases size - |buf|
      {
        var tmp := Recv(size - |buf|);
        if |tmp| == 0 {
          assert |buf| == |old(stream)|;
          return false, [];
        }
        ghost var b := buf;
        buf := buf + tmp;
        assert b + (tmp + stream) == (b + tmp) + stream;
      }
      assert |buf + stream| == |old(stream)|;
      return true, buf;
    }

    /** parse_request: the result does not depend on how the stream was cut. */
    method ParseRequest() returns (outcome: Outcome)
      modifies this
      ensures (outcome, stream) == Request(old(stream))
    {
      var ok, buf := RecvExactly(4);
      if !ok {
        return Closed;
      }
      ghost var rest := stream;
      var headerSize := BigEndian(buf);
      ok, buf := RecvExactly(headerSize);
      if !ok {
        return Closed;
      }
      assert buf == old(stream)[4..4 + headerSize] && stream == old(stream)[4 + headerSize..];
      var headers := SplitAll(buf);
      headers := headers[..|headers| - 1];
      var env := FillEnv(headers);
      return if env.Some? then Env(env.value) else Raised;
    }
  }
}

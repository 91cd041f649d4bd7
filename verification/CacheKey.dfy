/** The keys of the turbocache: how long they are, how they are written, and what they identify. */
module CacheKey {
  import opened Basics

  const MAX_KEY_LENGTH: nat := 256
  const NEWLINE: Byte := 10

  /** What a key is made from. A string that arrives in parts counts by its contents. */
  datatype Subject = Subject(https: bool, host: Bytes, path: Bytes, varyCookie: Option<Bytes>)

  function Flag(https: bool): Byte {
    if https then 'S' as int else 'H' as int
  }

  function Tail(varyCookie: Option<Bytes>): Bytes {
    if varyCookie.Some? then [NEWLINE] + varyCookie.value else []
  }

  function Key(s: Subject): Bytes {
    [Flag(s.https)] + s.host + [NEWLINE] + s.path + Tail(s.varyCookie)
  }

  /** Sizes are added up in 32 bits. Zero means that the key would be too long. */
  function CalculateKeyLength(hostSize: nat, pathSize: nat, cookieSize: Option<nat>): nat {
    var size := (1 + hostSize + 1 + pathSize + if cookieSize.Some? then cookieSize.value + 1 else 0) % UINT_RANGE;
    if size > MAX_KEY_LENGTH then 0 else size
  }

  function LengthOf(s: Subject): nat {
    CalculateKeyLength(|s.host|, |s.path|, if s.varyCookie.Some? then Some(|s.varyCookie.value|) else None)
  }

  /** The computed length is the key's, or zero for a key of more than 256 bytes, if and only if the
      32-bit sum does not wrap around to a length that would be allowed. */
  lemma LengthRightIff(s: Subject)
    ensures LengthOf(s) == (if |Key(s)| <= MAX_KEY_LENGTH then |Key(s)| else 0) <==>
      |Key(s)| < UINT_RANGE || |Key(s)| % UINT_RANGE == 0 || |Key(s)| % UINT_RANGE > MAX_KEY_LENGTH
  {
  }

  /** So for every key below 2^32 bytes it is zero exactly when the key is too long. */
  lemma LengthIsExact(s: Subject)
    requires |Key(s)| < UINT_RANGE
    ensures LengthOf(s) == if |Key(s)| <= MAX_KEY_LENGTH then |Key(s)| else 0
    ensures LengthOf(s) != 0 <==> |Key(s)| <= MAX_KEY_LENGTH
  {
  }

  /** A key, byte by byte: `Sh`, a newline, `/`, a newline, `c`. */
  lemma KeyExample()
    ensures Key(Subject(true, [104], [47], Some([99]))) == [83, 104, 10, 47, 10, 99]
    ensures Key(Subject(false, [104], [47], None)) == [72, 104, 10, 47]
  {
  }

  // ----- writing

  /** How much appendData copies. Behind the end the room left wraps around to a huge number, so that
      everything is copied. */
  function Copied(pos: nat, end: nat, n: nat): nat {
    if pos <= end && end - pos < n then end - pos else n
  }

  /** Memory from the buffer's start on, after one appendData. */
  function Put(mem: Bytes, pos: nat, end: nat, data: Bytes): (r: Bytes)
    requires pos + Copied(pos, end, |data|) <= |mem|
    ensures |r| == |mem|
  {
    var n := Copied(pos, end, |data|);
    mem[..pos] + data[..n] + mem[pos + n..]
  }

  function Size(parts: seq<Bytes>): nat {
    if parts == [] then 0 else |parts[0]| + Size(parts[1..])
  }

  lemma {:induction false} SizeIsLength(parts: seq<Bytes>)
    ensures Size(parts) == |Concat(parts)|
  {
    if parts != [] {
      SizeIsLength(parts[1..]);
    }
  }

  /** The same after one appendData for each part; the position advances by their whole sizes. */
  function PutAll(mem: Bytes, pos: nat, end: nat, parts: seq<Bytes>): (r: Bytes)
    requires pos + Size(parts) <= |mem|
    ensures |r| == |mem|
    decreases |parts|
  {
    if parts == [] then mem else PutAll(Put(mem, pos, end, parts[0]), pos + |parts[0]|, end, parts[1..])
  }

  /** `appendData`. `output` stands for the memory from the buffer's start on. */
  method AppendData(output: array<Byte>, pos: nat, end: nat, data: Bytes) returns (next: nat)
    requires pos + Copied(pos, end, |data|) <= output.Length
    modifies output
    ensures next == pos + |data|
    ensures output[..] == Put(old(output[..]), pos, end, data)
  {
    var count := if pos <= end && end - pos < |data| then end - pos else |data|;
    var i := 0;
    while i < count
      invariant 0 <= i <= count
      invariant forall j | 0 <= j < output.Length ::
                  output[j] == if pos <= j < pos + i then data[j - pos] else old(output[j])
    {
      output[pos + i] := data[i];
      i := i + 1;
    }
    return pos + |data|;
  }

  /** `later` stands for the parts that will follow. */
  method AppendParts(output: array<Byte>, pos: nat, end: nat, parts: seq<Bytes>, ghost later: seq<Bytes>)
    returns (next: nat)
    requires pos + Size(parts + later) <= output.Length
    modifies output
    ensures next + Size(later) == pos + Size(parts + later)
    ensures PutAll(output[..], next, end, later) == PutAll(old(output[..]), pos, end, parts + later)
  {
    hide Put, PutAll, Size;
    next := pos;
    var k := 0;
    assert parts[0..] == parts;
    while k < |parts|
      invariant 0 <= k <= |parts|
      invariant next + Size(parts[k..] + later) == pos + Size(parts + later)
      invariant PutAll(output[..], next, end, parts[k..] + later) == PutAll(old(output[..]), pos, end, parts + later)
    {
      CopiedBelow(next, end, |parts[k]|);
      assert parts[k..] + later == [parts[k]] + (parts[k + 1..] + later);
      PutAllCons(output[..], next, end, parts[k], parts[k + 1..] + later);
      next := AppendData(output, next, end, parts[k]);
      k := k + 1;
    }
    assert parts[k..] + later == later;
  }

  lemma CopiedBelow(pos: nat, end: nat, n: nat)
    ensures Copied(pos, end, n) <= n
  {
  }

  function Joined(parts: Option<seq<Bytes>>): Option<Bytes> {
    if parts.Some? then Some(Concat(parts.value)) else None
  }

  /** What generateKey appends, in order. */
  function CookieParts(varyCookie: Option<seq<Bytes>>): seq<Bytes> {
    if varyCookie.Some? then [[NEWLINE]] + varyCookie.value else []
  }

  function KeyParts(https: bool, path: Bytes, host: seq<Bytes>, varyCookie: Option<seq<Bytes>>): seq<Bytes> {
    [[Flag(https)]] + (host + ([[NEWLINE]] + ([path] + CookieParts(varyCookie))))
  }

  lemma ConcatCons(x: Bytes, xs: seq<Bytes>)
    ensures Concat([x] + xs) == x + Concat(xs)
  {
    assert ([x] + xs)[1..] == xs;
  }

  lemma Regroup(f: Bytes, h: Bytes, p: Bytes, t: Bytes)
    ensures f + (h + ([NEWLINE] + (p + t))) == f + h + [NEWLINE] + p + t
  {
  }

  lemma PartsJoin(https: bool, path: Bytes, host: seq<Bytes>, varyCookie: Option<seq<Bytes>>)
    ensures Concat(KeyParts(https, path, host, varyCookie))
         == Key(Subject(https, Concat(host), path, Joined(varyCookie)))
  {
    var c := CookieParts(varyCookie);
    assert Concat(c) == Tail(Joined(varyCookie)) by {
      if varyCookie.Some? {
        ConcatCons([NEWLINE], varyCookie.value);
      }
    }
    hide Concat, Tail, CookieParts;
    ConcatCons([Flag(https)], host + ([[NEWLINE]] + ([path] + c)));
    ConcatAppend(host, [[NEWLINE]] + ([path] + c));
    ConcatCons([NEWLINE], [path] + c);
    ConcatCons(path, c);
    Regroup([Flag(https)], Concat(host), path, Concat(c));
  }

  lemma PutAllCons(mem: Bytes, pos: nat, end: nat, x: Bytes, xs: seq<Bytes>)
    requires pos + Size([x] + xs) <= |mem|
    ensures Size([x] + xs) == |x| + Size(xs)
    ensures PutAll(mem, pos, end, [x] + xs) == PutAll(Put(mem, pos, end, x), pos + |x|, end, xs)
  {
    assert ([x] + xs)[1..] == xs;
  }

  /** generateKey, for a buffer of any size: the parts are appended one after the other. */
  method GenerateKey(https: bool, path: Bytes, host: seq<Bytes>, varyCookie: Option<seq<Bytes>>,
                     output: array<Byte>, size: nat)
    requires Size(KeyParts(https, path, host, varyCookie)) <= output.Length
    modifies output
    ensures output[..] == PutAll(old(output[..]), 0, size, KeyParts(https, path, host, varyCookie))
  {
    hide Size, PutAll, Put;
    ghost var c := CookieParts(varyCookie);
    PutAllCons(output[..], 0, size, [Flag(https)], host + ([[NEWLINE]] + ([path] + c)));
    var pos := AppendData(output, 0, size, [Flag(https)]);
    pos := AppendParts(output, pos, size, host, [[NEWLINE]] + ([path] + c));
    PutAllCons(output[..], pos, size, [NEWLINE], [path] + c);
    pos := AppendData(output, pos, size, [NEWLINE]);
    PutAllCons(output[..], pos, size, path, c);
    pos := AppendData(output, pos, size, path);
    if varyCookie.Some? {
      PutAllCons(output[..], pos, size, [NEWLINE], varyCookie.value);
      pos := AppendData(output, pos, size, [NEWLINE]);
      assert varyCookie.value + [] == varyCookie.value;
      pos := AppendParts(output, pos, size, varyCookie.value, []);
    }
    PutNothing(output[..], pos, size);
  }

  lemma PutNothing(mem: Bytes, pos: nat, end: nat)
    requires pos <= |mem|
    ensures Size([]) == 0 && PutAll(mem, pos, end, []) == mem
  {
  }

  // ----- what is written where

  /** Byte `i` of the memory is written when the parts are appended from `pos` on. */
  predicate Written(pos: nat, end: nat, parts: seq<Bytes>, i: int)
    decreases |parts|
  {
    parts != [] && (pos <= i < pos + Copied(pos, end, |parts[0]|) || Written(pos + |parts[0]|, end, parts[1..], i))
  }

  lemma {:induction false} PutAllAt(mem: Bytes, pos: nat, end: nat, parts: seq<Bytes>, i: nat)
    requires pos + Size(parts) <= |mem| && i < |mem|
    ensures Size(parts) == |Concat(parts)|
    ensures Written(pos, end, parts, i) ==> pos <= i < pos + Size(parts)
    ensures PutAll(mem, pos, end, parts)[i] == if Written(pos, end, parts, i) then Concat(parts)[i - pos] else mem[i]
    decreases |parts|
  {
    SizeIsLength(parts);
    if parts != [] {
      assert Concat(parts) == parts[0] + Concat(parts[1..]);
      PutAllAt(Put(mem, pos, end, parts[0]), pos + |parts[0]|, end, parts[1..], i);
    }
  }

  lemma {:induction false} WrittenExactly(pos: nat, parts: seq<Bytes>, i: int)
    ensures Written(pos, pos + |Concat(parts)|, parts, i) <==> pos <= i < pos + |Concat(parts)|
    decreases |parts|
  {
    if parts != [] {
      assert Concat(parts) == parts[0] + Concat(parts[1..]);
      WrittenExactly(pos + |parts[0]|, parts[1..], i);
    }
  }

  /** With the key's own length the key is written in full and nothing behind it, however host and
      cookie are cut into parts. */
  lemma KeyIsWritten(https: bool, path: Bytes, host: seq<Bytes>, varyCookie: Option<seq<Bytes>>, mem: Bytes)
    requires Size(KeyParts(https, path, host, varyCookie)) <= |mem|
    ensures
      var key := Key(Subject(https, Concat(host), path, Joined(varyCookie)));
      |key| <= |mem| && PutAll(mem, 0, |key|, KeyParts(https, path, host, varyCookie)) == key + mem[|key|..]
  {
    PartsJoin(https, path, host, varyCookie);
    SizeIsLength(KeyParts(https, path, host, varyCookie));
    hide Concat, Key, KeyParts, PutAll, Written, Size;
    var parts := KeyParts(https, path, host, varyCookie);
    var key := Key(Subject(https, Concat(host), path, Joined(varyCookie)));
    var r := PutAll(mem, 0, |key|, parts);
    forall i | 0 <= i < |mem| ensures r[i] == (key + mem[|key|..])[i] {
      PutAllAt(mem, 0, |key|, parts, i);
      WrittenExactly(0, parts, i);
    }
  }

  /** Some part that is not empty begins behind the end. */
  predicate BeginsBehind(pos: nat, end: nat, parts: seq<Bytes>)
    decreases |parts|
  {
    parts != [] && ((pos > end && parts[0] != []) || BeginsBehind(pos + |parts[0]|, end, parts[1..]))
  }

  lemma {:induction false} WrittenBehind(pos: nat, end: nat, parts: seq<Bytes>, i: int)
    requires i >= end && Written(pos, end, parts, i)
    ensures BeginsBehind(pos, end, parts)
    decreases |parts|
  {
    if !(pos <= i < pos + Copied(pos, end, |parts[0]|)) {
      WrittenBehind(pos + |parts[0]|, end, parts[1..], i);
    }
  }

  lemma {:induction false} SomeWrittenBehind(pos: nat, end: nat, parts: seq<Bytes>) returns (i: int)
    requires BeginsBehind(pos, end, parts)
    ensures i >= end && Written(pos, end, parts, i)
    decreases |parts|
  {
    if pos > end && parts[0] != [] {
      i := pos;
    } else {
      i := SomeWrittenBehind(pos + |parts[0]|, end, parts[1..]);
    }
  }

  /** The buffer of `end` bytes keeps what lies behind it, whatever that is. */
  ghost predicate KeepsBehind(end: nat, parts: seq<Bytes>) {
    forall mem: Bytes | |mem| >= end && |mem| >= Size(parts) :: PutAll(mem, 0, end, parts)[end..] == mem[end..]
  }

  /** For a buffer of any size: nothing is written behind it if and only if no part begins there. */
  lemma KeepsBehindIff(end: nat, parts: seq<Bytes>)
    ensures KeepsBehind(end, parts) <==> !BeginsBehind(0, end, parts)
  {
    hide PutAll, Written, BeginsBehind;
    if BeginsBehind(0, end, parts) {
      var i := SomeWrittenBehind(0, end, parts);
      var whole := Concat(parts);
      SizeIsLength(parts);
      var n := if |whole| > end then |whole| else end;
      var mem: Bytes := seq(n, j => if 0 <= j < |whole| then (whole[j] as int + 1) % 256 else 0);
      WrittenInside(0, end, parts, i);
      PutAllAt(mem, 0, end, parts, i);
      assert PutAll(mem, 0, end, parts)[end..][i - end] != mem[end..][i - end];
    } else {
      forall mem: Bytes | |mem| >= end && |mem| >= Size(parts)
        ensures PutAll(mem, 0, end, parts)[end..] == mem[end..]
      {
        forall i | end <= i < |mem| ensures PutAll(mem, 0, end, parts)[i] == mem[i] {
          PutAllAt(mem, 0, end, parts, i);
          if Written(0, end, parts, i) {
            WrittenBehind(0, end, parts, i);
          }
        }
      }
    }
  }

  lemma {:induction false} WrittenInside(pos: nat, end: nat, parts: seq<Bytes>, i: int)
    requires Written(pos, end, parts, i)
    ensures pos <= i < pos + |Concat(parts)|
    decreases |parts|
  {
    assert Concat(parts) == parts[0] + Concat(parts[1..]);
    if !(pos <= i < pos + Copied(pos, end, |parts[0]|)) {
      WrittenInside(pos + |parts[0]|, end, parts[1..], i);
    }
  }

  /** So a computed length that is the key's own keeps what lies behind the buffer. One that wrapped
      around need not: with a host of 2^32 bytes the path and its separator land behind the end. */
  lemma WrappedLengthOverruns(https: bool, path: Bytes, host: Bytes)
    requires |host| == UINT_RANGE && |path| <= MAX_KEY_LENGTH - 2
    ensures
      var size := LengthOf(Subject(https, host, path, None));
      size == 2 + |path| && !KeepsBehind(size, KeyParts(https, path, [host], None))
  {
    var size := LengthOf(Subject(https, host, path, None));
    assert size == 2 + |path|;
    var parts := KeyParts(https, path, [host], None);
    assert parts[0] == [Flag(https)] && parts[1] == host && parts[2] == [NEWLINE];
    assert parts[1..][0] == host && parts[1..][1..][0] == [NEWLINE];
    assert BeginsBehind(1 + |host|, size, parts[1..][1..]);
    assert BeginsBehind(1, size, parts[1..]);
    assert BeginsBehind(0, size, parts);
    KeepsBehindIff(size, parts);
  }

  // ----- identity

  predicate OneLine(s: Bytes) {
    NEWLINE !in s
  }

  lemma FirstLineUnique(x: Bytes, y: Bytes, x': Bytes, y': Bytes)
    requires OneLine(x) && OneLine(x')
    requires x + [NEWLINE] + y == x' + [NEWLINE] + y'
    ensures x == x' && y == y'
  {
    var s, s' := x + [NEWLINE] + y, x' + [NEWLINE] + y';
    assert s[|x|] == NEWLINE && s'[|x'|] == NEWLINE;
    assert forall i | 0 <= i < |x| :: s[i] == x[i] != NEWLINE;
    assert forall i | 0 <= i < |x'| :: s'[i] == x'[i] != NEWLINE;
    assert |x| == |x'|;
    assert x == s[..|x|] && x' == s'[..|x'|];
    assert y == s[|x| + 1..] && y' == s'[|x'| + 1..];
  }

  lemma CookieShowsAsLine(path: Bytes, cookie: Option<Bytes>)
    requires OneLine(path)
    ensures OneLine(path + Tail(cookie)) <==> cookie.None?
  {
  }

  lemma RestUnique(path: Bytes, cookie: Option<Bytes>, path': Bytes, cookie': Option<Bytes>)
    requires OneLine(path) && OneLine(path')
    requires path + Tail(cookie) == path' + Tail(cookie')
    ensures path == path' && cookie == cookie'
  {
    CookieShowsAsLine(path, cookie);
    CookieShowsAsLine(path', cookie');
    if cookie.Some? {
      assert path + Tail(cookie) == path + [NEWLINE] + cookie.value;
      assert path' + Tail(cookie') == path' + [NEWLINE] + cookie'.value;
      FirstLineUnique(path, cookie.value, path', cookie'.value);
    } else {
      assert path + Tail(cookie) == path && path' + Tail(cookie') == path';
    }
  }

  lemma KeyShape(s: Subject)
    ensures |Key(s)| > 0 && Key(s)[0] == Flag(s.https)
    ensures Key(s)[1..] == s.host + [NEWLINE] + (s.path + Tail(s.varyCookie))
  {
    hide Tail;
  }

  /** Two requests get the same key exactly when scheme, host, path and vary cookie agree. */
  lemma KeysIdentify(s: Subject, s': Subject)
    requires OneLine(s.host) && OneLine(s.path) && OneLine(s'.host) && OneLine(s'.path)
    ensures Key(s) == Key(s') <==> s == s'
  {
    if Key(s) == Key(s') {
      KeyShape(s);
      KeyShape(s');
      hide Key, Tail;
      var rest, rest' := s.path + Tail(s.varyCookie), s'.path + Tail(s'.varyCookie);
      FirstLineUnique(s.host, rest, s'.host, rest');
      RestUnique(s.path, s.varyCookie, s'.path, s'.varyCookie);
    }
  }

  /** With a newline in the path the cookie cannot be told from the rest of the path. */
  lemma NewlineInPathCollides(s: Subject, a: Bytes, b: Bytes)
    requires s.path == a + [NEWLINE] + b && s.varyCookie.None?
    ensures Key(s) == Key(s.(path := a, varyCookie := Some(b)))
  {
    var k := [Flag(s.https)] + s.host + [NEWLINE];
    assert k + (a + [NEWLINE] + b) + [] == k + a + ([NEWLINE] + b);
  }

  lemma NewlineInHostCollides(s: Subject, a: Bytes, b: Bytes)
    requires s.host == a + [NEWLINE] + b
    ensures Key(s) == Key(s.(host := a, path := b + [NEWLINE] + s.path))
  {
    var f, t := [Flag(s.https)], Tail(s.varyCookie);
    assert f + (a + [NEWLINE] + b) + [NEWLINE] + s.path + t == f + a + [NEWLINE] + (b + [NEWLINE] + s.path) + t;
  }

  lemma CookieCollides(s: Subject)
    requires s.varyCookie.Some?
    ensures Key(s) == Key(s.(path := s.path + [NEWLINE] + s.varyCookie.value, varyCookie := None))
  {
    NewlineInPathCollides(s.(path := s.path + [NEWLINE] + s.varyCookie.value, varyCookie := None),
      s.path, s.varyCookie.value);
  }

  /** A first line that is the whole: behind it nothing else can be read from the key. */
  lemma LoneLineUnique(host: Bytes, path: Bytes, host': Bytes, rest': Bytes)
    requires OneLine(host) && OneLine(path) && host + [NEWLINE] + path == host' + [NEWLINE] + rest'
    ensures host == host' && path == rest'
  {
    var s, s' := host + [NEWLINE] + path, host' + [NEWLINE] + rest';
    assert s'[|host'|] == NEWLINE;
    assert forall i | 0 <= i < |s| && i != |host| :: s[i] != NEWLINE;
    assert host == s[..|host|] && host' == s'[..|host'|];
    assert path == s[|host| + 1..] && rest' == s'[|host'| + 1..];
  }

  ghost predicate SharesKey(s: Subject) {
    exists s' :: s' != s && Key(s') == Key(s)
  }

  /** A subject shares its key with another one if and only if its host or path holds a newline or it
      has a vary cookie. */
  lemma SharesKeyIff(s: Subject)
    ensures SharesKey(s) <==> !OneLine(s.host) || !OneLine(s.path) || s.varyCookie.Some?
  {
    if !OneLine(s.host) {
      var i :| 0 <= i < |s.host| && s.host[i] == NEWLINE;
      var a, b := s.host[..i], s.host[i + 1..];
      NewlineInHostCollides(s, a, b);
      assert s.(host := a, path := b + [NEWLINE] + s.path).host != s.host;
    } else if s.varyCookie.Some? {
      CookieCollides(s);
      assert s.(path := s.path + [NEWLINE] + s.varyCookie.value, varyCookie := None) != s;
    } else if !OneLine(s.path) {
      var i :| 0 <= i < |s.path| && s.path[i] == NEWLINE;
      var a, b := s.path[..i], s.path[i + 1..];
      NewlineInPathCollides(s, a, b);
      assert s.(path := a, varyCookie := Some(b)) != s;
    } else {
      forall s' | Key(s') == Key(s) ensures s' == s {
        LonelyKey(s, s');
      }
    }
  }

  lemma LonelyKey(s: Subject, s': Subject)
    requires OneLine(s.host) && OneLine(s.path) && s.varyCookie.None? && Key(s') == Key(s)
    ensures s' == s
  {
    KeyShape(s);
    KeyShape(s');
    hide Key;
    var rest' := s'.path + Tail(s'.varyCookie);
    assert s.path + Tail(s.varyCookie) == s.path;
    LoneLineUnique(s.host, s.path, s'.host, rest');
    assert s'.path == rest'[..|s'.path|] && OneLine(s'.path);
    CookieShowsAsLine(s'.path, s'.varyCookie);
  }
}

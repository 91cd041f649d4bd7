/**
  The gathering write of the Ruby extension: components are spread over groups of at most
  IOV_MAX vectors, and each group is written with as many writev calls as it takes.
  A vector is its remaining bytes: advancing the base and shortening the length drops a prefix.
 */
module WriteVector {
  import opened Basics

  /** The vectors of one group, filled and advanced in place. */
  class Group {
    var vectors: seq<Bytes>
    var totalSize: nat

    ghost predicate Sized()
      reads this
    {
      totalSize == |Concat(vectors)|
    }

    constructor (count: nat)
      ensures vectors == Blank(count) && totalSize == 0
    {
      vectors := Blank(count);
      totalSize := 0;
    }

    /** `update_group_written_info`: exactly the unsent suffix remains, also with empty vectors. */
    method UpdateWritten(written: nat)
      requires Sized() && written < totalSize
      modifies this
      ensures Sized()
      ensures Concat(vectors) == Concat(old(vectors))[written..]
      ensures |vectors| <= |old(vectors)|
    {
      ghost var v := vectors;
      var counter := 0;
      var i := 0;
      while i < |vectors|
        invariant 0 <= i <= |v| && vectors == v && totalSize == |Concat(v)|
        invariant counter == |Concat(v[..i])|
        invariant counter <= written
        invariant i == |v| ==> counter == |Concat(v)|
      {
        ConcatTake(v, i);
        assert i + 1 == |v| ==> v[..i + 1] == v;
        ghost var before := counter;
        counter := counter + |vectors[i]|;
        if counter == written {
          ConcatSplit(v, i + 1);
          vectors := vectors[i + 1..];
          totalSize := totalSize - written;
          return;
        } else if counter > written {
          var keep := counter - written;
          ConcatAt(v, i);
          assert Concat(v)[written..] == v[i][written - before..] + Concat(v[i + 1..]);
          vectors := vectors[i..];
          totalSize := totalSize - written;
          vectors := vectors[0 := vectors[0][|vectors[0]| - keep..]];
          assert vectors[1..] == v[i + 1..];
          return;
        }
        i := i + 1;
      }
      assert false;
    }
  }

  ghost function Vectors(groups: seq<Group>): (v: seq<seq<Bytes>>)
    reads groups
    ensures |v| == |groups| && forall i | 0 <= i < |groups| :: v[i] == groups[i].vectors
  {
    seq(|groups|, i requires 0 <= i < |groups| reads groups => groups[i].vectors)
  }

  ghost function Sizes(groups: seq<Group>): (n: seq<nat>)
    reads groups
    ensures |n| == |groups| && forall i | 0 <= i < |groups| :: n[i] == groups[i].totalSize
  {
    seq(|groups|, i requires 0 <= i < |groups| reads groups => groups[i].totalSize)
  }

  predicate Separate(groups: seq<Group>) {
    forall i, j | 0 <= i < j < |groups| :: groups[i] != groups[j]
  }

  /** What one call of writev does: it is not ready, it fails, or it takes up to `n` bytes. */
  datatype Outcome = Again | Fatal | Wrote(n: nat)

  /** How a call ends: it returns, it raises, or the schedule is used up first. */
  datatype End = Returned | Raised | Pending

  // ----- grouping

  /** The vectors of each group, with the size recorded for it. */
  predicate Tallied(vectors: seq<seq<Bytes>>, sizes: seq<nat>) {
    |vectors| == |sizes| && forall i | 0 <= i < |vectors| :: sizes[i] == |Concat(vectors[i])|
  }

  function Blank(count: nat): (v: seq<Bytes>)
    ensures |v| == count && forall i | 0 <= i < count :: v[i] == []
  {
    seq(count, _ => [])
  }

  lemma {:induction false} BlankIsEmpty(v: seq<Bytes>)
    requires forall i | 0 <= i < |v| :: v[i] == []
    ensures Concat(v) == []
  {
    if v != [] { BlankIsEmpty(v[1..]); }
  }

  method AllocateFull(count: nat, iovMax: nat) returns (groups: seq<Group>)
    ensures Separate(groups) && fresh(groups) && |groups| == count
    ensures forall i | 0 <= i < count :: groups[i].vectors == Blank(iovMax) && groups[i].totalSize == 0
  {
    groups := [];
    var i := 0;
    while i < count
      invariant 0 <= i <= count && |groups| == i
      invariant Separate(groups) && fresh(groups)
      invariant forall j | 0 <= j < i :: groups[j].vectors == Blank(iovMax) && groups[j].totalSize == 0
    {
      var g := new Group(iovMax);
      groups := groups + [g];
      i := i + 1;
    }
  }

  /** Room for `total` vectors: full groups, and a last one for the remainder if there is any. */
  method Allocate(total: nat, iovMax: nat) returns (groups: seq<Group>)
    requires iovMax > 0
    ensures Separate(groups) && fresh(groups)
    ensures |Concat(Vectors(groups))| == total
    ensures forall i | 0 <= i < |groups| :: 0 < |groups[i].vectors| <= iovMax
    ensures forall i | 0 <= i < |groups| :: groups[i].vectors == Blank(|groups[i].vectors|) && groups[i].totalSize == 0
    ensures forall i | 0 <= i < |groups| - 1 :: |groups[i].vectors| == iovMax
  {
    var full, rest := total / iovMax, total % iovMax;
    assert total == full * iovMax + rest;
    hide Concat, Blank;
    groups := AllocateFull(full, iovMax);
    ghost var v := Vectors(groups);
    FullRoom(v, iovMax);
    if rest != 0 {
      ConcatSnoc(v, Blank(rest));
      var g := new Group(rest);
      groups := groups + [g];
      assert Vectors(groups) == v + [Blank(rest)];
    }
  }

  lemma {:induction false} FullRoom(vectors: seq<seq<Bytes>>, iovMax: nat)
    requires forall i | 0 <= i < |vectors| :: |vectors[i]| == iovMax
    ensures |Concat(vectors)| == |vectors| * iovMax
    decreases |vectors|
  {
    if vectors != [] {
      FullRoom(vectors[1..], iovMax);
      assert |vectors| * iovMax == iovMax + (|vectors| - 1) * iovMax;
    }
  }

  lemma NoRoom()
    ensures Concat<Bytes>([]) == [] && Concat<Byte>([]) == []
  {
  }

  lemma PlaceVector(v: seq<Bytes>, i: nat, s: Bytes)
    requires i < |v| && v[i] == []
    ensures |Concat(v[i := s])| == |Concat(v)| + |s|
  {
    ConcatAt(v, i);
    ConcatAt(v[i := s], i);
    assert v[i := s][..i] == v[..i] && v[i := s][i + 1..] == v[i + 1..];
  }

  /** The next component goes to slot `v` of group `g`; what lies before holds `placed`, what lies
      behind is blank. */
  predicate Filled(vectors: seq<seq<Bytes>>, g: nat, v: nat, placed: seq<Bytes>) {
    && g <= |vectors|
    && (g == |vectors| ==> v == 0 && Concat(vectors) == placed)
    && (g < |vectors| ==>
          && v < |vectors[g]|
          && Concat(vectors[..g]) + vectors[g][..v] == placed
          && forall k | v <= k < |vectors[g]| :: vectors[g][k] == [])
    && (forall h | g < h < |vectors| :: vectors[h] == Blank(|vectors[h]|))
    && (forall h | 0 <= h < |vectors| :: 0 < |vectors[h]|)
  }

  predicate SameShape(a: seq<seq<Bytes>>, b: seq<seq<Bytes>>) {
    |a| == |b| && forall i | 0 <= i < |a| :: |a[i]| == |b[i]|
  }

  /** While components are left there is a slot for the next: indices stay in range. */
  lemma RoomLeft(vectors: seq<seq<Bytes>>, g: nat, v: nat, placed: seq<Bytes>)
    requires Filled(vectors, g, v, placed) && |placed| < |Concat(vectors)|
    ensures g < |vectors| && v < |vectors[g]|
  {
  }

  lemma PlacedInGroup(vectors: seq<seq<Bytes>>, g: nat, v: nat, placed: seq<Bytes>, s: Bytes)
    requires Filled(vectors, g, v, placed) && g < |vectors|
    ensures
      var after := vectors[g := vectors[g][v := s]];
      && |Concat(after)| == |Concat(vectors)|
      && (v + 1 < |vectors[g]| ==> Filled(after, g, v + 1, placed + [s]))
      && (v + 1 == |vectors[g]| ==> Filled(after, g + 1, 0, placed + [s]))
  {
    var after := vectors[g := vectors[g][v := s]];
    assert after[..g] == vectors[..g] && after[g + 1..] == vectors[g + 1..];
    ConcatAt(vectors, g);
    ConcatAt(after, g);
    ConcatTake(after, g);
    assert after[g][..v + 1] == vectors[g][..v] + [s];
    if v + 1 == |vectors[g]| {
      assert after[g] == after[g][..v + 1];
      assert after[..g + 1] == after || g + 1 < |after|;
      if g + 1 < |after| {
        assert after[g + 1][..0] == [];
      }
    }
  }

  /** The groups have the shape that was allocated, sizes to match, and hold `placed`. */
  ghost predicate Holding(groups: seq<Group>, g: nat, v: nat, placed: seq<Bytes>, shape: seq<seq<Bytes>>)
    reads groups
  {
    && Separate(groups)
    && Filled(Vectors(groups), g, v, placed)
    && Tallied(Vectors(groups), Sizes(groups))
    && SameShape(shape, Vectors(groups)) && |Concat(Vectors(groups))| == |Concat(shape)|
  }

  method Place(groups: seq<Group>, g: nat, v: nat, s: Bytes, ghost placed: seq<Bytes>, ghost shape: seq<seq<Bytes>>)
    returns (g': nat, v': nat)
    requires Holding(groups, g, v, placed, shape) && |placed| < |Concat(shape)|
    modifies groups
    ensures Holding(groups, g', v', placed + [s], shape)
  {
    ghost var before := Vectors(groups);
    RoomLeft(before, g, v, placed);
    PlaceVector(before[g], v, s);
    PlacedInGroup(before, g, v, placed, s);
    hide Concat, Filled;
    groups[g].vectors := groups[g].vectors[v := s];
    groups[g].totalSize := groups[g].totalSize + |s|;
    assert Vectors(groups) == before[g := before[g][v := s]];
    assert Tallied(Vectors(groups), Sizes(groups));
    g', v' := g, v + 1;
    if v' == |groups[g'].vectors| {
      g', v' := g + 1, 0;
    }
  }

  lemma SumWraps(a: nat, b: nat)
    ensures (a % UINT_RANGE + b) % UINT_RANGE == (a + b) % UINT_RANGE
  {
  }

  /** The inner filling loop: the components of one array. */
  method DistributeArray(groups: seq<Group>, g: nat, v: nat, total: nat, strings: seq<Bytes>,
                         ghost before: seq<Bytes>, ghost shape: seq<seq<Bytes>>)
    returns (g': nat, v': nat, total': nat)
    requires Holding(groups, g, v, before, shape) && |before| + |strings| <= |Concat(shape)|
    requires total == |Concat(before)| % UINT_RANGE
    modifies groups
    ensures Holding(groups, g', v', before + strings, shape)
    ensures total' == |Concat(before + strings)| % UINT_RANGE
  {
    hide Holding, Concat;
    g', v', total' := g, v, total;
    var j := 0;
    assert before + strings[..0] == before;
    while j < |strings|
      invariant 0 <= j <= |strings|
      invariant Holding(groups, g', v', before + strings[..j], shape)
      invariant total' == |Concat(before + strings[..j])| % UINT_RANGE
    {
      ghost var placed := before + strings[..j];
      assert placed + [strings[j]] == before + strings[..j + 1];
      ConcatSnoc(placed, strings[j]);
      g', v' := Place(groups, g', v', strings[j], placed, shape);
      SumWraps(|Concat(placed)|, |strings[j]|);
      total' := (total' + |strings[j]|) % UINT_RANGE;
      j := j + 1;
    }
    assert strings[..j] == strings;
  }

  /** The components end up in the groups in order, each once. */
  method Distribute(components: seq<seq<Bytes>>, iovMax: nat) returns (groups: seq<Group>, total: nat)
    requires iovMax > 0
    ensures Separate(groups) && fresh(groups)
    ensures Concat(Vectors(groups)) == Concat(components)
    ensures Tallied(Vectors(groups), Sizes(groups))
    ensures forall i | 0 <= i < |groups| :: 0 < |groups[i].vectors| <= iovMax
    ensures forall i | 0 <= i < |groups| - 1 :: |groups[i].vectors| == iovMax
    ensures total == |Concat(Concat(components))| % UINT_RANGE
  {
    NoRoom();
    hide Filled, Tallied, Concat;
    groups := Allocate(|Concat(components)|, iovMax);
    ghost var shape := Vectors(groups);
    AllBlank(shape, Sizes(groups));
    total := 0;
    var g, v := 0, 0;
    var i := 0;
    assert components[..0] == [];
    while i < |components|
      invariant 0 <= i <= |components| && fresh(groups)
      invariant 0 <= g && 0 <= v && Holding(groups, g, v, Concat(components[..i]), shape)
      invariant total == |Concat(Concat(components[..i]))| % UINT_RANGE
    {
      ConcatTake(components, i);
      ConcatSplit(components, i + 1);
      g, v, total := DistributeArray(groups, g, v, total, components[i], Concat(components[..i]), shape);
      i := i + 1;
    }
    assert components[..i] == components;
    AllPlaced(Vectors(groups), g, v, Concat(components));
    assert forall j | 0 <= j < |groups| :: |groups[j].vectors| == |shape[j]|;
  }

  lemma AllBlank(vectors: seq<seq<Bytes>>, sizes: seq<nat>)
    requires forall i | 0 <= i < |vectors| :: 0 < |vectors[i]| && vectors[i] == Blank(|vectors[i]|)
    requires |sizes| == |vectors| && forall i | 0 <= i < |sizes| :: sizes[i] == 0
    ensures Filled(vectors, 0, 0, []) && Tallied(vectors, sizes)
  {
    forall i | 0 <= i < |vectors| ensures |Concat(vectors[i])| == 0 {
      BlankIsEmpty(vectors[i]);
    }
    if vectors != [] {
      assert vectors[..0] == [] && vectors[0][..0] == [];
    }
  }

  lemma AllPlaced(vectors: seq<seq<Bytes>>, g: nat, v: nat, placed: seq<Bytes>)
    requires Filled(vectors, g, v, placed) && |Concat(vectors)| == |placed|
    ensures Concat(vectors) == placed
  {
    if g < |vectors| {
      PlacedShort(vectors, g, v, placed);
    }
  }

  lemma PlacedShort(vectors: seq<seq<Bytes>>, g: nat, v: nat, placed: seq<Bytes>)
    requires Filled(vectors, g, v, placed) && g < |vectors|
    ensures |placed| < |Concat(vectors)|
  {
    ConcatAt(vectors, g);
  }

  // ----- writing

  function AsInt(n: nat): int {
    if n < 0x8000_0000 then n else n - UINT_RANGE
  }

  /** Sizes are summed up in an unsigned int and returned as an int. */
  function ReturnValue(size: nat): int {
    AsInt(size % UINT_RANGE)
  }

  /** The components cut into runs of `iovMax`. */
  function Runs(flat: seq<Bytes>, iovMax: nat): seq<seq<Bytes>>
    requires iovMax > 0
  {
    if flat == [] then []
    else if |flat| <= iovMax then [flat]
    else [flat[..iovMax]] + Runs(flat[iovMax..], iovMax)
  }

  lemma {:induction false} GroupsAreRuns(vectors: seq<seq<Bytes>>, iovMax: nat)
    requires iovMax > 0 && forall i | 0 <= i < |vectors| :: 0 < |vectors[i]| <= iovMax
    requires forall i | 0 <= i < |vectors| - 1 :: |vectors[i]| == iovMax
    ensures vectors == Runs(Concat(vectors), iovMax)
    decreases |vectors|
  {
    if vectors != [] {
      var flat := Concat(vectors);
      GroupsAreRuns(vectors[1..], iovMax);
      assert flat == vectors[0] + Concat(vectors[1..]);
      if |vectors| == 1 {
        assert Concat(vectors[1..]) == [];
        assert flat == vectors[0] && vectors == [flat];
      } else {
        assert |Concat(vectors[1..])| >= |vectors[1]|;
        assert flat[..iovMax] == vectors[0] && flat[iovMax..] == Concat(vectors[1..]);
      }
    }
  }

  function Joined(groups: seq<seq<Bytes>>): (r: seq<Bytes>)
    ensures |r| == |groups| && forall i | 0 <= i < |groups| :: r[i] == Concat(groups[i])
  {
    seq(|groups|, i requires 0 <= i < |groups| => Concat(groups[i]))
  }

  datatype Trace = Trace(sent: Bytes, end: End)

  function Prepend(b: Bytes, t: Trace): Trace {
    t.(sent := b + t.sent)
  }

  lemma PrependTwice(a: Bytes, b: Bytes, t: Trace)
    ensures Prepend(a, Prepend(b, t)) == Prepend(a + b, t)
  {
  }

  /** The plain meaning of the call: strings written one after the other, each retried until it is
      taken in full. */
  function Write(todo: seq<Bytes>, schedule: seq<Outcome>): Trace
    decreases |schedule|
  {
    if todo == [] then Trace([], Returned)
    else if schedule == [] then Trace([], Pending)
    else
      match schedule[0]
      case Again => Write(todo, schedule[1..])
      case Fatal => Trace([], Raised)
      case Wrote(n) =>
        if n < |todo[0]| then Prepend(todo[0][..n], Write([todo[0][n..]] + todo[1..], schedule[1..]))
        else Prepend(todo[0], Write(todo[1..], schedule[1..]))
  }

  /** What is sent is a prefix of the strings in order, and all of them when the call returns. */
  lemma {:induction false} WriteSendsInOrder(todo: seq<Bytes>, schedule: seq<Outcome>)
    ensures Write(todo, schedule).sent <= Concat(todo)
    ensures Write(todo, schedule).end == Returned ==> Write(todo, schedule).sent == Concat(todo)
    ensures Write(todo, schedule).end == Raised ==> Fatal in schedule
    decreases |schedule|
  {
    if todo != [] && schedule != [] {
      assert Concat(todo) == todo[0] + Concat(todo[1..]);
      match schedule[0]
      case Again => WriteSendsInOrder(todo, schedule[1..]);
      case Fatal =>
      case Wrote(n) =>
        if n < |todo[0]| {
          var rest := [todo[0][n..]] + todo[1..];
          assert rest[1..] == todo[1..];
          assert Concat(rest) == todo[0][n..] + Concat(todo[1..]);
          assert todo[0] == todo[0][..n] + todo[0][n..];
          assert Concat(todo) == todo[0][..n] + Concat(rest);
          WriteSendsInOrder(rest, schedule[1..]);
        } else {
          WriteSendsInOrder(todo[1..], schedule[1..]);
        }
    }
  }

  /** What has ended does not depend on later attempts. */
  lemma {:induction false} WriteIsStable(todo: seq<Bytes>, s: seq<Outcome>, t: seq<Outcome>)
    requires Write(todo, s).end != Pending
    ensures Write(todo, s + t) == Write(todo, s)
    decreases |s|
  {
    if todo != [] {
      assert (s + t)[0] == s[0] && (s + t)[1..] == s[1..] + t;
      match s[0] {
        case Again => WriteIsStable(todo, s[1..], t);
        case Fatal =>
        case Wrote(n) =>
          WriteIsStable(if n < |todo[0]| then [todo[0][n..]] + todo[1..] else todo[1..], s[1..], t);
      }
    }
  }

  /** A failed attempt ends the call with an exception: it sends nothing more. */
  lemma {:induction false} FailureRaises(todo: seq<Bytes>, s: seq<Outcome>, t: seq<Outcome>)
    requires Write(todo, s).end == Pending
    ensures Write(todo, s + [Fatal] + t) == Trace(Write(todo, s).sent, Raised)
    decreases |s|
  {
    var all := s + [Fatal] + t;
    if s == [] {
      assert all[0] == Fatal;
    } else {
      assert all[0] == s[0] && all[1..] == s[1..] + [Fatal] + t;
      match s[0] {
        case Again => FailureRaises(todo, s[1..], t);
        case Fatal =>
        case Wrote(n) =>
          FailureRaises(if n < |todo[0]| then [todo[0][n..]] + todo[1..] else todo[1..], s[1..], t);
      }
    }
  }

  /** Attempt `k` fails while the call is still under way. */
  predicate FailsAt(todo: seq<Bytes>, schedule: seq<Outcome>, k: int) {
    0 <= k < |schedule| && schedule[k] == Fatal && Write(todo, schedule[..k]).end == Pending
  }

  /** The call raises if and only if some attempt fails while it is under way. */
  lemma {:induction false} RaisesIff(todo: seq<Bytes>, schedule: seq<Outcome>)
    ensures Write(todo, schedule).end == Raised <==> exists k :: FailsAt(todo, schedule, k)
    decreases |schedule|
  {
    if k :| FailsAt(todo, schedule, k) {
      assert schedule == schedule[..k] + [Fatal] + schedule[k + 1..];
      FailureRaises(todo, schedule[..k], schedule[k + 1..]);
    } else if schedule != [] {
      var n := |schedule| - 1;
      var before := schedule[..n];
      assert schedule == before + [schedule[n]];
      forall k ensures !FailsAt(todo, before, k) {
        assert 0 <= k < n ==> before[..k] == schedule[..k] && before[k] == schedule[k];
        assert !FailsAt(todo, schedule, k);
      }
      RaisesIff(todo, before);
      if Write(todo, before).end == Returned {
        WriteIsStable(todo, before, [schedule[n]]);
      } else {
        assert !FailsAt(todo, schedule, n);
        LastAttempt(todo, before, schedule[n]);
      }
    }
  }

  lemma {:induction false} LastAttempt(todo: seq<Bytes>, s: seq<Outcome>, o: Outcome)
    requires Write(todo, s).end == Pending && o != Fatal
    ensures Write(todo, s + [o]).end != Raised
    decreases |s|
  {
    var all := s + [o];
    if s == [] {
      assert all[0] == o && all[1..] == [];
    } else {
      assert all[0] == s[0] && all[1..] == s[1..] + [o];
      match s[0] {
        case Again => LastAttempt(todo, s[1..], o);
        case Fatal =>
        case Wrote(n) =>
          LastAttempt(if n < |todo[0]| then [todo[0][n..]] + todo[1..] else todo[1..], s[1..], o);
      }
    }
  }

  /** How many attempts of a schedule write something. */
  function Progress(schedule: seq<Outcome>): nat {
    if schedule == [] then 0
    else Progress(schedule[1..]) + if schedule[0].Wrote? && schedule[0].n > 0 then 1 else 0
  }

  /** The call does return if no attempt fails and enough of them make progress, whatever refusals
      and empty writes come in between. */
  lemma {:induction false} WriteReturns(todo: seq<Bytes>, schedule: seq<Outcome>)
    requires Fatal !in schedule
    requires Progress(schedule) >= |Concat(todo)| + |todo|
    ensures Write(todo, schedule).end == Returned
    decreases |schedule|
  {
    if todo != [] {
      assert schedule[0] in schedule;
      assert forall o | o in schedule[1..] :: o in schedule;
      assert Concat(todo) == todo[0] + Concat(todo[1..]);
      if schedule[0].Again? {
        WriteReturns(todo, schedule[1..]);
      } else if schedule[0].n < |todo[0]| {
        var rest := [todo[0][schedule[0].n..]] + todo[1..];
        assert rest[1..] == todo[1..];
        assert Concat(rest) == todo[0][schedule[0].n..] + Concat(todo[1..]);
        WriteReturns(rest, schedule[1..]);
      } else {
        WriteReturns(todo[1..], schedule[1..]);
      }
    }
  }

  /** One group: retried until all of it is taken. `later` stands for the groups that follow. */
  method WriteGroup(g: Group, schedule: seq<Outcome>, ghost later: seq<Bytes>)
    returns (sent: Bytes, used: nat, end: End)
    requires g.Sized()
    modifies g
    ensures used <= |schedule|
    ensures Write([Concat(old(g.vectors))] + later, schedule)
         == if end == Returned then Prepend(sent, Write(later, schedule[used..])) else Trace(sent, end)
  {
    sent, used := [], 0;
    ghost var whole := Write([Concat(g.vectors)] + later, schedule);
    assert schedule[0..] == schedule;
    while used < |schedule|
      invariant 0 <= used <= |schedule|
      invariant g.Sized()
      invariant whole == Prepend(sent, Write([Concat(g.vectors)] + later, schedule[used..]))
    {
      hide Concat;
      var outcome := schedule[used];
      ghost var todo := [Concat(g.vectors)] + later;
      assert todo[1..] == later && schedule[used..][1..] == schedule[used + 1..];
      used := used + 1;
      if outcome == Fatal {
        return sent, used, Raised;
      } else if outcome.Wrote? {
        var ret := if outcome.n < g.totalSize then outcome.n else g.totalSize;
        var part := Concat(g.vectors)[..ret];
        if ret < g.totalSize {
          g.UpdateWritten(ret);
          PrependTwice(sent, part, Write([Concat(g.vectors)] + later, schedule[used..]));
          sent := sent + part;
        } else {
          assert part == todo[0];
          PrependTwice(sent, part, Write(later, schedule[used..]));
          sent := sent + part;
          return sent, used, Returned;
        }
      }
    }
    return sent, used, Pending;
  }

  /** The groups in turn, until one of them fails. */
  method WriteGroups(groups: seq<Group>, schedule: seq<Outcome>) returns (sent: Bytes, end: End)
    requires Separate(groups) && Tallied(Vectors(groups), Sizes(groups))
    modifies groups
    ensures Trace(sent, end) == Write(Joined(old(Vectors(groups))), schedule)
  {
    hide Write, Concat;
    ghost var todo := Joined(Vectors(groups));
    sent := [];
    var used := 0;
    var i := 0;
    assert todo[0..] == todo && schedule[0..] == schedule;
    PrependNothing(Write(todo, schedule));
    while i < |groups|
      invariant 0 <= i <= |groups| && 0 <= used <= |schedule|
      invariant forall j | i <= j < |groups| :: groups[j].Sized() && Concat(groups[j].vectors) == todo[j]
      invariant Write(todo, schedule) == Prepend(sent, Write(todo[i..], schedule[used..]))
    {
      assert todo[i..] == [Concat(groups[i].vectors)] + todo[i + 1..];
      var more, n, e := WriteGroup(groups[i], schedule[used..], todo[i + 1..]);
      assert schedule[used..][n..] == schedule[used + n..];
      PrependTwice(sent, more, Write(todo[i + 1..], schedule[used + n..]));
      sent := sent + more;
      if e != Returned {
        return sent, e;
      }
      used := used + n;
      i := i + 1;
    }
    end := Returned;
    assert todo[i..] == [];
    WroteAll(schedule[used..]);
  }

  lemma PrependNothing(t: Trace)
    ensures Prepend([], t) == t
  {
  }

  lemma WroteAll(schedule: seq<Outcome>)
    ensures Write([], schedule) == Trace([], Returned)
  {
  }

  /** For every schedule of refusals, failures and short writes the call sends what plain writing
      of the runs of components sends, and returns the number of bytes. */
  method GenericWritev(components: seq<seq<Bytes>>, iovMax: nat, schedule: seq<Outcome>)
    returns (sent: Bytes, end: End, value: int)
    requires iovMax > 0
    ensures Trace(sent, end) == Write(Joined(Runs(Concat(components), iovMax)), schedule)
    ensures end == Returned ==> value == ReturnValue(|Concat(Concat(components))|)
  {
    if |Concat(components)| == 0 {
      return [], Returned, 0;
    }
    hide Concat, Write, Runs;
    var groups, total := Distribute(components, iovMax);
    GroupsAreRuns(Vectors(groups), iovMax);
    sent, end := WriteGroups(groups, schedule);
    value := if end == Returned then AsInt(total) else 0;
  }

  /** The returned number is that of the bytes written if and only if it is below 2^31. */
  lemma ReturnValueExactIff(size: nat)
    ensures ReturnValue(size) == size <==> size < 0x8000_0000
    ensures -0x8000_0000 <= ReturnValue(size) < 0x8000_0000 && (size - ReturnValue(size)) % 0x1_0000_0000 == 0
  {
  }

  /** Cutting into groups does not change the bytes. */
  lemma {:induction false} RunsKeepBytes(flat: seq<Bytes>, iovMax: nat)
    requires iovMax > 0
    ensures Concat(Joined(Runs(flat, iovMax))) == Concat(flat)
    decreases |flat|
  {
    if |flat| > iovMax {
      var runs := Runs(flat, iovMax);
      RunsKeepBytes(flat[iovMax..], iovMax);
      assert Joined(runs)[1..] == Joined(runs[1..]);
      ConcatSplit(flat, iovMax);
    } else if flat != [] {
      assert Joined(Runs(flat, iovMax)) == [Concat(flat)];
      ConcatSingle(Concat(flat));
    }
  }

  /** So whatever the schedule, the bytes sent are a prefix of the components in order, and all of
      them when the call returns; and the call raises exactly when an attempt fails while it is under
      way. */
  lemma SendsComponentsInOrder(components: seq<seq<Bytes>>, iovMax: nat, schedule: seq<Outcome>)
    requires iovMax > 0
    ensures
      var todo := Joined(Runs(Concat(components), iovMax));
      var t := Write(todo, schedule);
      && t.sent <= Concat(Concat(components))
      && (t.end == Returned ==> t.sent == Concat(Concat(components)))
      && (t.end == Raised <==> exists k :: FailsAt(todo, schedule, k))
  {
    hide Write;
    RunsKeepBytes(Concat(components), iovMax);
    WriteSendsInOrder(Joined(Runs(Concat(components), iovMax)), schedule);
    RaisesIff(Joined(Runs(Concat(components), iovMax)), schedule);
  }
}

/** The reference-counting registry that decides when a native file handle is
    closed (`PointerReferenceCounter` in src/lib.rs).

    The registry maps a handle to the number of live aliases of it.  The
    model keeps the real map, plus two ghost records: the log of successful
    operations and the sequence of handles destroyed so far.  The pure
    functions `Step` and `RunFrom` replay a log; the class invariant says that
    the real state is always the replay of the log, and the lemmas below state
    what any replay guarantees. */
module Registry {
  import opened Wrappers

  /** The identity of a native handle (a `*mut GrooveFile` pointer, which the
      source only hashes and compares). */
  type Handle = nat

  type Pos = n: nat | n > 0 witness 1

  /** One registry operation on handle `h`. */
  datatype Op = Incr(h: Handle) | Decr(h: Handle)

  /** Counts of tracked handles (an untracked handle has no entry, never a 0)
      and the handles destroyed so far, in order. */
  datatype RcState = RcState(counts: map<Handle, Pos>, destroyed: seq<Handle>)

  function Empty(): RcState { RcState(map[], []) }

  /** The count of `h`, 0 when it is untracked. */
  function Count(m: map<Handle, Pos>, h: Handle): nat { if h in m then m[h] else 0 }

  const TOO_MANY_DEREFERENCES: string := "too many dereferences"

  /** One operation as `incr`/`decr` perform it; `None` is the panic of a
      `decr` on an untracked handle. */
  function Step(s: RcState, op: Op): (r: Option<RcState>)
    ensures r.Some? <==> op.Incr? || op.h in s.counts
    ensures r.Some? && op.Incr? ==> Count(r.value.counts, op.h) == Count(s.counts, op.h) + 1
    ensures r.Some? && op.Decr? ==> Count(r.value.counts, op.h) == Count(s.counts, op.h) - 1
    ensures r.Some? ==> forall g :: g != op.h ==> Count(r.value.counts, g) == Count(s.counts, g)
    ensures r.Some? ==>
      r.value.destroyed == if op.Decr? && Count(s.counts, op.h) == 1 then s.destroyed + [op.h] else s.destroyed
  {
    match op
    case Incr(h) => Some(RcState(s.counts[h := Count(s.counts, h) + 1], s.destroyed))
    case Decr(h) =>
      if h !in s.counts then None
      else if s.counts[h] == 1 then Some(RcState(s.counts - {h}, s.destroyed + [h]))
      else Some(RcState(s.counts[h := s.counts[h] - 1], s.destroyed))
  }

  /** Replays `ops` from `s`, stopping at the first panic. */
  function RunFrom(s: RcState, ops: seq<Op>): (r: Option<RcState>)
    ensures ops == [] ==> r == Some(s)
    ensures r.Some? ==> s.destroyed <= r.value.destroyed
    decreases |ops|
  {
    if ops == [] then Some(s)
    else match RunFrom(s, ops[..|ops| - 1])
      case None => None
      case Some(m) => Step(m, ops[|ops| - 1])
  }

  /** Increments minus decrements of `h` in `ops`. */
  function Balance(ops: seq<Op>, h: Handle): int
  {
    multiset(ops)[Incr(h)] as int - multiset(ops)[Decr(h)] as int
  }

  /** Every `decr` in `ops` finds its handle tracked, starting from `s`. */
  ghost predicate NeverOverReleased(s: RcState, ops: seq<Op>)
  {
    forall k :: 0 <= k < |ops| && ops[k].Decr? ==> Count(s.counts, ops[k].h) + Balance(ops[..k], ops[k].h) > 0
  }

  /** The number of `incr`s of `h` in `ops` that found `h` untracked: the
      number of lifetimes of `h` that start during `ops`. */
  function Births(s: RcState, ops: seq<Op>, h: Handle): nat
    decreases |ops|
  {
    if ops == [] then 0
    else
      var prefix := ops[..|ops| - 1];
      Births(s, prefix, h) +
        (if ops[|ops| - 1] == Incr(h) && Count(s.counts, h) + Balance(prefix, h) == 0 then 1 else 0)
  }

  /** The log of registering each of `hs` once, in order. */
  function IncrOps(hs: seq<Handle>): (ops: seq<Op>)
    ensures |ops| == |hs|
    ensures forall k :: 0 <= k < |hs| ==> ops[k] == Incr(hs[k])
    decreases |hs|
  {
    if hs == [] then [] else IncrOps(hs[..|hs| - 1]) + [Incr(hs[|hs| - 1])]
  }

  /** The log of releasing each of `hs` once, in order. */
  function DecrOps(hs: seq<Handle>): (ops: seq<Op>)
    ensures |ops| == |hs|
    ensures forall k :: 0 <= k < |hs| ==> ops[k] == Decr(hs[k])
    decreases |hs|
  {
    if hs == [] then [] else DecrOps(hs[..|hs| - 1]) + [Decr(hs[|hs| - 1])]
  }

  /** Replaying a concatenation is replaying its parts in turn. */
  lemma {:induction false} RunFromAppend(s: RcState, a: seq<Op>, b: seq<Op>)
    ensures RunFrom(s, a + b) == match RunFrom(s, a) case None => None case Some(m) => RunFrom(m, b)
    decreases |b|
  {
    if b == [] {
      assert a + b == a;
    } else {
      var b' := b[..|b| - 1];
      assert (a + b)[..|a + b| - 1] == a + b';
      assert (a + b)[|a + b| - 1] == b[|b| - 1];
      RunFromAppend(s, a, b');
    }
  }

  /** The count of every handle after a replay is its count before plus its
      increments minus its decrements. */
  lemma {:induction false} RunTracksBalance(s: RcState, ops: seq<Op>, t: RcState)
    requires RunFrom(s, ops) == Some(t)
    ensures forall h :: Count(t.counts, h) == Count(s.counts, h) + Balance(ops, h)
    decreases |ops|
  {
    if ops != [] {
      var prefix, x := ops[..|ops| - 1], ops[|ops| - 1];
      assert ops == prefix + [x];
      var m :| RunFrom(s, prefix) == Some(m);
      RunTracksBalance(s, prefix, m);
      assert Step(m, x) == Some(t);
      forall h ensures Count(t.counts, h) == Count(s.counts, h) + Balance(ops, h) {
        assert multiset(ops) == multiset(prefix) + multiset{x};
      }
    }
  }

  /** A replay panics exactly when some `decr` finds the count already at
      zero ("too many dereferences"); otherwise it runs to the end. */
  lemma {:induction false} RunDefinedIff(s: RcState, ops: seq<Op>)
    ensures RunFrom(s, ops).Some? <==> NeverOverReleased(s, ops)
    decreases |ops|
  {
    if ops != [] {
      var prefix, x := ops[..|ops| - 1], ops[|ops| - 1];
      RunDefinedIff(s, prefix);
      assert forall k :: 0 <= k < |prefix| ==> ops[k] == prefix[k] && ops[..k] == prefix[..k];
      assert ops[..|prefix|] == prefix;
      if NeverOverReleased(s, ops) {
        assert NeverOverReleased(s, prefix);
        var m :| RunFrom(s, prefix) == Some(m);
        RunTracksBalance(s, prefix, m);
        if x.Decr? {
          assert Count(s.counts, ops[|prefix|].h) + Balance(ops[..|prefix|], ops[|prefix|].h) > 0;
        }
      } else if RunFrom(s, prefix).Some? {
        var m :| RunFrom(s, prefix) == Some(m);
        RunTracksBalance(s, prefix, m);
        var k :| 0 <= k < |ops| && ops[k].Decr? && Count(s.counts, ops[k].h) + Balance(ops[..k], ops[k].h) <= 0;
        assert k == |prefix|;
      }
    }
  }

  /** Conservation of lifetimes: every lifetime of `h` that starts during a
      replay is, at its end, either still open (h tracked) or closed by
      exactly one destroy.  So `h` is never destroyed twice without being
      re-registered in between. */
  lemma {:induction false} LifetimeEndsInOneDestroy(s: RcState, ops: seq<Op>, t: RcState, h: Handle)
    requires RunFrom(s, ops) == Some(t)
    ensures multiset(t.destroyed)[h] + (if h in t.counts then 1 else 0)
         == multiset(s.destroyed)[h] + (if h in s.counts then 1 else 0) + Births(s, ops, h)
    decreases |ops|
  {
    if ops != [] {
      var prefix, x := ops[..|ops| - 1], ops[|ops| - 1];
      var m :| RunFrom(s, prefix) == Some(m);
      LifetimeEndsInOneDestroy(s, prefix, m, h);
      RunTracksBalance(s, prefix, m);
      assert Step(m, x) == Some(t);
      assert Count(m.counts, h) == Count(s.counts, h) + Balance(prefix, h);
    }
  }

  /** Starting from an empty registry, a `decr` destroys `h` exactly when,
      counting that `decr`, the decrements of `h` equal its increments; any
      other `decr` destroys nothing. */
  lemma DestroyExactlyWhenBalanced(ops: seq<Op>, m: RcState, t: RcState, h: Handle)
    requires RunFrom(Empty(), ops) == Some(m)
    requires RunFrom(Empty(), ops + [Decr(h)]) == Some(t)
    ensures t.destroyed == m.destroyed + [h] <==>
            multiset(ops + [Decr(h)])[Incr(h)] == multiset(ops + [Decr(h)])[Decr(h)]
    ensures t.destroyed != m.destroyed + [h] ==> t.destroyed == m.destroyed
  {
    assert (ops + [Decr(h)])[..|ops|] == ops;
    RunTracksBalance(Empty(), ops, m);
    assert multiset(ops + [Decr(h)]) == multiset(ops) + multiset{Decr(h)};
    assert Step(m, Decr(h)) == Some(t);
  }

  /** Once `h` is untracked, no sequence of operations without an `incr` of
      `h` can destroy it again: a `decr` of `h` panics instead. */
  lemma {:induction false} NoSecondDestroyWithoutIncr(s: RcState, ops: seq<Op>, h: Handle)
    requires h !in s.counts
    requires forall k :: 0 <= k < |ops| ==> ops[k] != Incr(h)
    ensures Decr(h) in ops ==> RunFrom(s, ops).None?
    ensures RunFrom(s, ops).Some? ==>
      h !in RunFrom(s, ops).value.counts &&
      multiset(RunFrom(s, ops).value.destroyed)[h] == multiset(s.destroyed)[h]
    decreases |ops|
  {
    if ops != [] {
      var prefix, x := ops[..|ops| - 1], ops[|ops| - 1];
      assert ops == prefix + [x];
      NoSecondDestroyWithoutIncr(s, prefix, h);
    }
  }

  /** Registering `hs` adds their occurrences to the counts and destroys
      nothing. */
  lemma {:induction false} AcquireAll(s: RcState, hs: seq<Handle>)
    ensures RunFrom(s, IncrOps(hs)).Some?
    ensures RunFrom(s, IncrOps(hs)).value.destroyed == s.destroyed
    ensures forall h :: Count(RunFrom(s, IncrOps(hs)).value.counts, h) == Count(s.counts, h) + multiset(hs)[h]
    decreases |hs|
  {
    if hs != [] {
      var prefix, x := hs[..|hs| - 1], hs[|hs| - 1];
      assert hs == prefix + [x];
      AcquireAll(s, prefix);
      var ops := IncrOps(hs);
      assert ops[..|ops| - 1] == IncrOps(prefix);
    }
  }

  /** Releasing `hs` once each succeeds whenever the registry holds at least
      that many references of every handle; each count drops by its
      occurrences, and exactly the handles whose count reaches zero are
      destroyed, once each. */
  lemma {:induction false} ReleaseAll(s: RcState, hs: seq<Handle>)
    requires forall h :: multiset(hs)[h] <= Count(s.counts, h)
    ensures RunFrom(s, DecrOps(hs)).Some?
    ensures forall h :: Count(RunFrom(s, DecrOps(hs)).value.counts, h) == Count(s.counts, h) - multiset(hs)[h]
    ensures forall h :: multiset(RunFrom(s, DecrOps(hs)).value.destroyed)[h]
                     == multiset(s.destroyed)[h] + (if 0 < multiset(hs)[h] == Count(s.counts, h) then 1 else 0)
    decreases |hs|
  {
    if hs != [] {
      var prefix, x := hs[..|hs| - 1], hs[|hs| - 1];
      assert hs == prefix + [x];
      assert multiset(hs) == multiset(prefix) + multiset{x};
      ReleaseAll(s, prefix);
      var ops := DecrOps(hs);
      assert ops[..|ops| - 1] == DecrOps(prefix);
      ReleaseOneMore(s, RunFrom(s, DecrOps(prefix)).value, prefix, x);
    }
  }

  /** The inductive step of `ReleaseAll`: one more release from a state that
      has released `prefix`. */
  lemma ReleaseOneMore(s: RcState, m: RcState, prefix: seq<Handle>, x: Handle)
    requires forall h :: multiset(prefix + [x])[h] <= Count(s.counts, h)
    requires forall h :: Count(m.counts, h) == Count(s.counts, h) - multiset(prefix)[h]
    requires forall h :: multiset(m.destroyed)[h]
                      == multiset(s.destroyed)[h] + (if 0 < multiset(prefix)[h] == Count(s.counts, h) then 1 else 0)
    ensures Step(m, Decr(x)).Some?
    ensures forall h :: Count(Step(m, Decr(x)).value.counts, h) == Count(s.counts, h) - multiset(prefix + [x])[h]
    ensures forall h :: multiset(Step(m, Decr(x)).value.destroyed)[h]
                     == multiset(s.destroyed)[h] + (if 0 < multiset(prefix + [x])[h] == Count(s.counts, h) then 1 else 0)
  {
    assert multiset(prefix + [x]) == multiset(prefix) + multiset{x};
    assert multiset(prefix)[x] < Count(s.counts, x);
    var t := Step(m, Decr(x)).value;
    forall h ensures multiset(t.destroyed)[h]
                  == multiset(s.destroyed)[h] + (if 0 < multiset(prefix + [x])[h] == Count(s.counts, h) then 1 else 0)
    {
      if h == x {
        assert multiset(prefix)[x] < Count(s.counts, x);
      }
    }
  }

  /** Two count maps that agree on every handle are the same map. */
  lemma CountsDetermineMap(a: map<Handle, Pos>, b: map<Handle, Pos>)
    requires forall h :: Count(a, h) == Count(b, h)
    ensures a == b
  {
    forall h | h in a ensures h in b && a[h] == b[h] {
      assert Count(a, h) == Count(b, h);
    }
    forall h | h in b ensures h in a {
      assert Count(a, h) == Count(b, h);
    }
  }

  /** Registering a multiset of handles and then releasing the same multiset,
      in any order, restores every count; it destroys only the handles that
      were untracked at the start (nobody else held them), once each. */
  lemma AcquireThenRelease(s: RcState, acquired: seq<Handle>, released: seq<Handle>)
    requires multiset(acquired) == multiset(released)
    ensures RunFrom(s, IncrOps(acquired) + DecrOps(released)).Some?
    ensures RunFrom(s, IncrOps(acquired) + DecrOps(released)).value.counts == s.counts
    ensures forall h :: multiset(RunFrom(s, IncrOps(acquired) + DecrOps(released)).value.destroyed)[h]
                     == multiset(s.destroyed)[h] + (if h in acquired && h !in s.counts then 1 else 0)
  {
    RunFromAppend(s, IncrOps(acquired), DecrOps(released));
    AcquireAll(s, acquired);
    var m := RunFrom(s, IncrOps(acquired)).value;
    ReleaseAll(m, released);
    var t := RunFrom(m, DecrOps(released)).value;
    CountsDetermineMap(t.counts, s.counts);
  }

  /** The process-wide registry of file handles.  `counts` is the source's
      `HashMap<P, usize>`; `destroyed` records each call of `destroy`. */
  class ReferenceCounter {
    var counts: map<Handle, Pos>
    ghost var destroyed: seq<Handle>
    ghost var log: seq<Op>

    /** The state is the replay of the log of successful operations. */
    ghost predicate Valid()
      reads this
    {
      RunFrom(Empty(), log) == Some(RcState(counts, destroyed))
    }

    ghost function State(): RcState
      reads this
    {
      RcState(counts, destroyed)
    }

    constructor ()
      ensures Valid()
      ensures counts == map[] && destroyed == [] && log == []
    {
      counts, destroyed, log := map[], [], [];
    }

    /** `h`'s count went up by one, nothing else changed. */
    twostate predicate Incremented(h: Handle)
      reads this
    {
      && counts == old(counts)[h := Count(old(counts), h) + 1]
      && destroyed == old(destroyed)
      && log == old(log) + [Op.Incr(h)]
    }

    /** One successful `decr` of a tracked `h`. */
    twostate predicate Decremented(h: Handle)
      reads this
    {
      && h in old(counts)
      && log == old(log) + [Op.Decr(h)]
      && (old(counts)[h] == 1 ==> counts == old(counts) - {h} && destroyed == old(destroyed) + [h])
      && (old(counts)[h] > 1 ==> counts == old(counts)[h := old(counts)[h] - 1] && destroyed == old(destroyed))
    }

    method Incr(h: Handle)
      requires Valid()
      modifies this
      ensures Valid()
      ensures Count(counts, h) == Count(old(counts), h) + 1
      ensures forall g :: g != h ==> Count(counts, g) == Count(old(counts), g)
      ensures Incremented(h)
    {
      var rc := if h in counts then counts[h] else 0;
      counts := counts[h := rc + 1];
      log := log + [Op.Incr(h)];
      assert log[..|log| - 1] == old(log);
    }

    /** Panics with "too many dereferences" on an untracked handle and then
        changes nothing; destroys `h` exactly when its count goes from one to
        zero. */
    method Decr(h: Handle) returns (r: Checked<()>)
      requires Valid()
      modifies this
      ensures Valid()
      ensures r.Panic? <==> h !in old(counts)
      ensures r.Panic? ==> r.msg == TOO_MANY_DEREFERENCES && counts == old(counts)
                           && destroyed == old(destroyed) && log == old(log)
      ensures r.Value? ==> Decremented(h)
      ensures r.Value? ==> Count(counts, h) == Count(old(counts), h) - 1
      ensures forall g :: g != h ==> Count(counts, g) == Count(old(counts), g)
    {
      if h !in counts {
        return Panic(TOO_MANY_DEREFERENCES);
      }
      var count := counts[h];
      if count == 1 {
        counts := counts - {h};
        destroyed := destroyed + [h];
      } else {
        counts := counts[h := count - 1];
      }
      log := log + [Op.Decr(h)];
      assert log[..|log| - 1] == old(log);
      r := Value(());
    }
  }
}

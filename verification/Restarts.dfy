/**
 Which restarts are safe: when a process starts on a sync file that is behind what
 was queued, a receiver can be misled later, except in one case that is exactly
 characterized here.
 */
module Restarts {
  import opened Prelude
  import opened Protocol
  import opened Delta
  import opened Replay

  // ---------- What may follow a restart ----------

  /** One family after the restart: builds, whose family may be queued, reconcile
      requests, writes of the sync file, and deliveries of anything ever queued. */
  datatype Move =
    | BuildMove(entries: seq<Keyed>, now: int, queued: bool)
    | ForgetMove
    | PersistMove
    | DeliverMove(family: StateFamily)

  ghost predicate Possible(t: Track, move: Move, hash: RecordHash, keyOf: RecordKey) {
    match move
    case BuildMove(entries, now, _) => GoodInput(t, entries, now, hash, keyOf) && t.memory.revision < MaxUint64
    case DeliverMove(family) => family in t.sent
    case _ => true
  }

  ghost function Moved(t: Track, move: Move, hash: RecordHash, keyOf: RecordKey): Track {
    if !Possible(t, move, hash, keyOf) then t
    else
      match move
      case BuildMove(entries, now, queued) =>
        var d := DeltaOf(t.memory, entries, now, hash);
        var built := Build(t, entries, now, hash);
        if queued && d.ok && d.family.Some? then Emit(built, d.family.value) else built
      case ForgetMove => Reconcile(t)
      case PersistMove => Persist(t)
      case DeliverMove(family) => Deliver(t, family, keyOf)
  }

  ghost function Continue(t: Track, moves: seq<Move>, hash: RecordHash, keyOf: RecordKey): Track {
    if moves == [] then t else Moved(Continue(t, moves[..|moves| - 1], hash, keyOf), moves[|moves| - 1], hash, keyOf)
  }

  lemma ContinueNext(t: Track, moves: seq<Move>, move: Move, hash: RecordHash, keyOf: RecordKey)
    ensures Continue(t, moves + [move], hash, keyOf) == Moved(Continue(t, moves, hash, keyOf), move, hash, keyOf)
  {
    assert (moves + [move])[..|moves|] == moves;
  }

  lemma {:induction false} ContinueConcat(t: Track, a: seq<Move>, b: seq<Move>, hash: RecordHash, keyOf: RecordKey)
    ensures Continue(t, a + b, hash, keyOf) == Continue(Continue(t, a, hash, keyOf), b, hash, keyOf)
  {
    if b == [] {
      assert a + b == a;
    } else {
      var init, last := b[..|b| - 1], b[|b| - 1];
      ContinueConcat(t, a, init, hash, keyOf);
      ContinueNext(t, a + init, last, hash, keyOf);
      assert a + b == a + init + [last];
    }
  }

  /** The receiver holds what the agent recorded at the receiver's revision. */
  ghost predicate Honest(t: Track) {
    t.receiver.revision in t.log && t.receiver.view == t.log[t.receiver.revision]
  }

  /** The receiver is at the agent's own revision and holds something else. */
  ghost predicate Misled(t: Track) {
    && t.receiver.revision == t.memory.revision && t.memory.revision in t.log
    && t.receiver.view != t.log[t.memory.revision]
  }

  // ---------- The condition ----------

  /** A receiver at revision `start` can be brought to revision `r` by what was sent. */
  ghost predicate Reach(sent: set<StateFamily>, start: nat, r: nat)
    decreases r, 1
  {
    start == r || exists m :: m in sent && ReachBy(sent, start, r, m)
  }

  /** The last step is the delivery of `m`. */
  ghost predicate ReachBy(sent: set<StateFamily>, start: nat, r: nat, m: StateFamily)
    decreases r, 0
  {
    m.revision == r && (m.full || (r > 0 && Reach(sent, start, r - 1)))
  }

  /** The receiver, or something queued that it can come to apply, is ahead of the file. */
  ghost predicate Harmful(t: Track) {
    || t.receiver.revision > t.disk.revision
    || exists m :: m in t.sent && Harms(t, m)
  }

  ghost predicate Harms(t: Track, m: StateFamily) {
    && m.revision > t.disk.revision
    && (m.full || m.revision > t.disk.revision + 1 || Reach(t.sent, t.receiver.revision, t.disk.revision))
  }

  // ---------- A harmful restart can mislead ----------

  /** Values that differ from a given view. */
  lemma OtherValues(view: Snapshot, x: Record, hash: RecordHash, keyOf: RecordKey) returns (entries: seq<Keyed>)
    requires hash(x).Some?
    ensures Hashable(entries, hash) && KeyedBy(entries, keyOf) && View(entries) != view
  {
    entries := if view == map[] then [Keyed(keyOf(x), x)] else [];
    SingleView(Keyed(keyOf(x), x));
    assert keyOf(x) in View([Keyed(keyOf(x), x)]);
  }

  /** A forgotten last sending makes the next build a full one, at the next revision. */
  lemma FullBuild(t: Track, entries: seq<Keyed>, hash: RecordHash, keyOf: RecordKey)
    returns (moves: seq<Move>, m: StateFamily)
    requires t.memory.revision < MaxUint64 && Hashable(entries, hash) && KeyedBy(entries, keyOf)
    ensures m.full && m.revision == t.memory.revision + 1 && Apply(map[], m, keyOf) == View(entries)
    ensures var t' := Continue(t, moves, hash, keyOf);
            && t'.memory.revision == m.revision && t'.log == t.log[m.revision := View(entries)]
            && t'.sent == t.sent + {m} && t'.receiver == t.receiver
  {
    var forgotten := Reconcile(t);
    moves := [ForgetMove, BuildMove(entries, 0, true)];
    ContinueNext(t, [], ForgetMove, hash, keyOf);
    ContinueNext(t, [ForgetMove], BuildMove(entries, 0, true), hash, keyOf);
    assert [] + [ForgetMove] == [ForgetMove] && [ForgetMove] + [BuildMove(entries, 0, true)] == moves;
    m := DeltaOf(forgotten.memory, entries, 0, hash).family.value;
    OverwriteAll(entries, keyOf);
  }

  /** Builds lead to any higher revision, with any values recorded there. */
  lemma {:induction false} Climb(t: Track, target: nat, entries: seq<Keyed>, hash: RecordHash, keyOf: RecordKey)
    returns (moves: seq<Move>, m: StateFamily)
    requires t.memory.revision < target <= MaxUint64 && Hashable(entries, hash) && KeyedBy(entries, keyOf)
    ensures m.full && m.revision == target && Apply(map[], m, keyOf) == View(entries)
    ensures var t' := Continue(t, moves, hash, keyOf);
            && t'.memory.revision == target && target in t'.log && t'.log[target] == View(entries)
            && m in t'.sent && t.sent <= t'.sent && t'.receiver == t.receiver
    decreases target - t.memory.revision
  {
    moves, m := FullBuild(t, entries, hash, keyOf);
    var next := Continue(t, moves, hash, keyOf);
    if m.revision < target {
      var more, last := Climb(next, target, entries, hash, keyOf);
      ContinueConcat(t, moves, more, hash, keyOf);
      moves, m := moves + more, last;
    }
  }

  lemma DeliverLast(t: Track, moves: seq<Move>, m: StateFamily, hash: RecordHash, keyOf: RecordKey)
    requires m in Continue(t, moves, hash, keyOf).sent
    ensures Continue(t, moves + [DeliverMove(m)], hash, keyOf) == Deliver(Continue(t, moves, hash, keyOf), m, keyOf)
  {
    ContinueNext(t, moves, DeliverMove(m), hash, keyOf);
  }

  /** Builds up to the revision of a queued family that the receiver can apply, and then
      the delivery of that family, mislead it. */
  lemma ClimbAndDeliver(t: Track, m: StateFamily, x: Record, hash: RecordHash, keyOf: RecordKey)
    returns (moves: seq<Move>)
    requires hash(x).Some? && m in t.sent && t.memory.revision < m.revision <= MaxUint64
    requires m.full || m.revision == t.receiver.revision + 1
    ensures Misled(Continue(t, moves, hash, keyOf))
  {
    var entries := OtherValues(Apply(t.receiver.view, m, keyOf), x, hash, keyOf);
    var climb, built := Climb(t, m.revision, entries, hash, keyOf);
    DeliverLast(t, climb, m, hash, keyOf);
    moves := climb + [DeliverMove(m)];
  }

  /** A reachable revision is reached by deliveries alone. */
  lemma {:induction false} ReachMoves(t: Track, r: nat, hash: RecordHash, keyOf: RecordKey) returns (moves: seq<Move>)
    requires Reach(t.sent, t.receiver.revision, r)
    ensures var t' := Continue(t, moves, hash, keyOf); t' == t.(receiver := t'.receiver) && t'.receiver.revision == r
    decreases r
  {
    moves := [];
    if t.receiver.revision != r {
      var m :| m in t.sent && ReachBy(t.sent, t.receiver.revision, r, m);
      if !m.full {
        assert Reach(t.sent, t.receiver.revision, r - 1);
        moves := ReachMoves(t, r - 1, hash, keyOf);
      }
      DeliverLast(t, moves, m, hash, keyOf);
      moves := moves + [DeliverMove(m)];
    }
  }

  lemma HarmfulMisleads(t: Track, x: Record, hash: RecordHash, keyOf: RecordKey) returns (moves: seq<Move>)
    requires Sound(t, hash, keyOf) && hash(x).Some? && t.memory.revision <= MaxUint64 && Harmful(t)
    ensures Misled(Continue(Restart(t), moves, hash, keyOf))
  {
    var start := Restart(t);
    if t.receiver.revision > t.disk.revision {
      var entries := OtherValues(t.receiver.view, x, hash, keyOf);
      var climb, _ := Climb(start, t.receiver.revision, entries, hash, keyOf);
      moves := climb;
    } else {
      var m :| m in t.sent && Harms(t, m);
      if m.full {
        moves := ClimbAndDeliver(start, m, x, hash, keyOf);
      } else if m.revision > t.disk.revision + 1 {
        var climb, built := Climb(start, m.revision - 1, [], hash, keyOf);
        DeliverLast(start, climb, built, hash, keyOf);
        moves := climb + [DeliverMove(built)];
        var rest := ClimbAndDeliver(Continue(start, moves, hash, keyOf), m, x, hash, keyOf);
        ContinueConcat(start, moves, rest, hash, keyOf);
        moves := moves + rest;
      } else {
        moves := ReachMoves(start, t.disk.revision, hash, keyOf);
        var rest := ClimbAndDeliver(Continue(start, moves, hash, keyOf), m, x, hash, keyOf);
        ContinueConcat(start, moves, rest, hash, keyOf);
        moves := moves + rest;
      }
    }
  }

  // ---------- Any other restart is safe ----------

  /** A change one ahead of a revision that no receiver comes to. */
  predicate Stranded(m: StateFamily, base: Option<nat>) {
    base.Some? && !m.full && m.revision == base.value + 1
  }

  function Cleaned(t: Track, base: Option<nat>): Track {
    t.(sent := set m | m in t.sent && !Stranded(m, base))
  }

  /** Sound but for stranded families. */
  ghost predicate Guarded(t: Track, base: Option<nat>, hash: RecordHash, keyOf: RecordKey) {
    && Sound(Cleaned(t, base), hash, keyOf)
    && (base.Some? ==> base.value <= t.memory.revision && !Reach(t.sent, t.receiver.revision, base.value))
  }

  /** Families ahead of a revision do not help to reach it. */
  lemma {:induction false} ReachIgnores(sent: set<StateFamily>, start: nat, r: nat, m: StateFamily)
    requires m.revision > r && Reach(sent + {m}, start, r)
    ensures Reach(sent, start, r)
    decreases r
  {
    if start != r {
      var last :| last in sent + {m} && ReachBy(sent + {m}, start, r, last);
      if !last.full {
        assert Reach(sent + {m}, start, r - 1);
        ReachIgnores(sent, start, r - 1, m);
      }
      assert last in sent && ReachBy(sent, start, r, last);
    }
  }

  lemma {:induction false} ReachThrough(sent: set<StateFamily>, a: nat, b: nat, r: nat)
    requires Reach(sent, a, b) && Reach(sent, b, r)
    ensures Reach(sent, a, r)
    decreases r
  {
    if b != r {
      var last :| last in sent && ReachBy(sent, b, r, last);
      if !last.full {
        assert Reach(sent, b, r - 1);
        ReachThrough(sent, a, b, r - 1);
      }
      assert ReachBy(sent, a, r, last);
    }
  }

  lemma BuiltGuarded(t: Track, base: Option<nat>, entries: seq<Keyed>, now: int, hash: RecordHash, keyOf: RecordKey)
    requires Collisionless(hash) && Guarded(t, base, hash, keyOf)
    requires GoodInput(t, entries, now, hash, keyOf) && t.memory.revision < MaxUint64
    ensures var d, built := DeltaOf(t.memory, entries, now, hash), Build(t, entries, now, hash);
            && Guarded(built, base, hash, keyOf)
            && (d.ok && d.family.Some? ==>
                  && Faithful(built.log, d.family.value, keyOf)
                  && d.family.value.revision == built.memory.revision == t.memory.revision + 1)
  {
    BuildSound(Cleaned(t, base), entries, now, hash, keyOf);
    assert Cleaned(Build(t, entries, now, hash), base) == Build(Cleaned(t, base), entries, now, hash);
    if DeltaOf(t.memory, entries, now, hash).ok {
      DeltaRecords(t.memory, entries, now, hash);
    }
  }

  lemma EmitGuarded(t: Track, base: Option<nat>, m: StateFamily, hash: RecordHash, keyOf: RecordKey)
    requires Guarded(t, base, hash, keyOf) && Faithful(t.log, m, keyOf) && m.revision <= t.memory.revision
    requires base.Some? ==> m.revision > base.value
    ensures Guarded(Emit(t, m), base, hash, keyOf)
  {
    EmitSound(Cleaned(t, base), m, hash, keyOf);
    assert Cleaned(Emit(t, m), base) == if Stranded(m, base) then Cleaned(t, base) else Emit(Cleaned(t, base), m);
    if base.Some? && Reach(t.sent + {m}, t.receiver.revision, base.value) {
      ReachIgnores(t.sent, t.receiver.revision, base.value, m);
    }
  }

  lemma BuildGuarded(t: Track, base: Option<nat>, entries: seq<Keyed>, now: int, queued: bool, hash: RecordHash,
                     keyOf: RecordKey)
    requires Collisionless(hash) && Guarded(t, base, hash, keyOf)
             && Possible(t, BuildMove(entries, now, queued), hash, keyOf)
    ensures Guarded(Moved(t, BuildMove(entries, now, queued), hash, keyOf), base, hash, keyOf)
  {
    var d := DeltaOf(t.memory, entries, now, hash);
    BuiltGuarded(t, base, entries, now, hash, keyOf);
    if queued && d.ok && d.family.Some? {
      EmitGuarded(Build(t, entries, now, hash), base, d.family.value, hash, keyOf);
    }
  }

  lemma DeliverGuarded(t: Track, base: Option<nat>, m: StateFamily, hash: RecordHash, keyOf: RecordKey)
    requires Guarded(t, base, hash, keyOf) && m in t.sent
    ensures Guarded(Deliver(t, m, keyOf), base, hash, keyOf)
  {
    var t' := Deliver(t, m, keyOf);
    if t' != t {
      assert m.full || m.revision == t.receiver.revision + 1;
      assert !Stranded(m, base);
      DeliverSound(Cleaned(t, base), m, hash, keyOf);
      assert Cleaned(t', base) == Deliver(Cleaned(t, base), m, keyOf);
      assert ReachBy(t.sent, t.receiver.revision, m.revision, m);
      if base.Some? && Reach(t.sent, m.revision, base.value) {
        ReachThrough(t.sent, t.receiver.revision, m.revision, base.value);
      }
    }
  }

  lemma MoveGuarded(t: Track, base: Option<nat>, move: Move, hash: RecordHash, keyOf: RecordKey)
    requires Collisionless(hash) && Guarded(t, base, hash, keyOf)
    ensures Guarded(Moved(t, move, hash, keyOf), base, hash, keyOf)
  {
    if Possible(t, move, hash, keyOf) {
      var clean := Cleaned(t, base);
      match move
      case BuildMove(entries, now, queued) => BuildGuarded(t, base, entries, now, queued, hash, keyOf);
      case DeliverMove(m) => DeliverGuarded(t, base, m, hash, keyOf);
      case ForgetMove =>
        RewriteSound(clean, Reconcile(t).memory, t.disk, hash, keyOf);
        assert Cleaned(Reconcile(t), base) == clean.(memory := Reconcile(t).memory, disk := t.disk);
      case PersistMove =>
        RewriteSound(clean, t.memory, t.memory, hash, keyOf);
        assert Cleaned(Persist(t), base) == clean.(memory := t.memory, disk := t.memory);
    }
  }

  lemma {:induction false} GuardedHonest(t: Track, base: Option<nat>, moves: seq<Move>, hash: RecordHash,
                                         keyOf: RecordKey)
    requires Collisionless(hash) && Guarded(t, base, hash, keyOf)
    ensures Guarded(Continue(t, moves, hash, keyOf), base, hash, keyOf) && Honest(Continue(t, moves, hash, keyOf))
  {
    if moves != [] {
      GuardedHonest(t, base, moves[..|moves| - 1], hash, keyOf);
      MoveGuarded(Continue(t, moves[..|moves| - 1], hash, keyOf), base, moves[|moves| - 1], hash, keyOf);
    }
  }

  lemma HarmlessGuarded(t: Track, hash: RecordHash, keyOf: RecordKey) returns (base: Option<nat>)
    requires Sound(t, hash, keyOf) && !Harmful(t)
    ensures Guarded(Restart(t), base, hash, keyOf)
  {
    if NoRollback(t) {
      base := None;
      RestartSound(t, hash, keyOf);
      assert Cleaned(Restart(t), base) == Restart(t);
    } else {
      base := Some(t.disk.revision);
      var m :| m in t.sent && m.revision > t.disk.revision;
      assert !Harms(t, m);
      var start := Cleaned(Restart(t), base);
      forall other | other in start.sent ensures other.revision <= t.disk.revision {
        assert !Harms(t, other);
      }
      if start.receiver.revision != 0 {
        var received :| received in t.sent && received.revision == t.receiver.revision;
        assert received in start.sent;
      }
    }
  }

  /** After any restart, whatever follows: every continuation keeps the receiver honest if
      and only if the restart is harmless; after a harmful one some continuation has the
      receiver, at the agent's own revision, hold values the agent never recorded there. */
  lemma RestartExact(t: Track, x: Record, hash: RecordHash, keyOf: RecordKey)
    requires Collisionless(hash) && Sound(t, hash, keyOf) && hash(x).Some? && t.memory.revision <= MaxUint64
    ensures Harmful(t) <==> exists moves :: Misled(Continue(Restart(t), moves, hash, keyOf))
    ensures !Harmful(t) <==> forall moves :: Honest(Continue(Restart(t), moves, hash, keyOf))
  {
    if Harmful(t) {
      var moves := HarmfulMisleads(t, x, hash, keyOf);
      assert !Honest(Continue(Restart(t), moves, hash, keyOf));
    } else {
      var base := HarmlessGuarded(t, hash, keyOf);
      forall moves ensures Honest(Continue(Restart(t), moves, hash, keyOf)) {
        GuardedHonest(Restart(t), base, moves, hash, keyOf);
      }
    }
  }
}

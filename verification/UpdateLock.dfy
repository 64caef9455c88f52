/**
 Any number of updaters side by side: what the lock file guarantees, and when the
 installed versions can only ascend.
 */
module UpdateLock {
  import opened Prelude
  import opened SemVer
  import U = Updater

  /** An updater that passed its version check, holds the lock, or is gone. `entry` is
      what was installed when it got the lock, `saved` its snapshot. */
  datatype Phase =
    | Checked(current: Version, target: Version)
    | Inside(target: Version, entry: Version, saved: Option<Version>)
    | Gone

  /** What an updater does with the lock held. */
  datatype Work = TakeLock | Snapshot | RunCommand | Replace | Restore | RemoveLock

  datatype Effect = Effect(run: nat, work: Work)

  /** `installed` is the version of the installed binary, `history` the versions that
      finished updates left behind. */
  datatype Host = Host(lock: bool, installed: Version, runs: map<nat, Phase>, log: seq<Effect>, history: seq<Version>)

  /** `requested`: the target was asked for by name. */
  datatype Event = Begin(run: nat, target: Version, requested: bool) | Do(run: nat, work: Work) | Die(run: nat)

  function NewHost(v: Version): Host {
    Host(false, v, map[], [], [v])
  }

  /** An update is started from the installed binary. It goes on to any version asked for
      by name, otherwise only to a greater one. */
  function BeginStep(w: Host, r: nat, target: Version, requested: bool): Host {
    if r in w.runs then w
    else
      var proceeds := requested || CompareOf(w.installed, target) < 0;
      w.(runs := w.runs[r := if proceeds then Checked(w.installed, target) else Gone])
  }

  /** Creating the lock file fails when it exists. */
  function LockStep(w: Host, r: nat): Host {
    if r !in w.runs || !w.runs[r].Checked? then w
    else if w.lock then w.(runs := w.runs[r := Gone])
    else w.(lock := true, runs := w.runs[r := Inside(w.runs[r].target, w.installed, None)],
            log := w.log + [Effect(r, TakeLock)])
  }

  /** The snapshot is taken once, and nothing is replaced before it. */
  function WorkStep(w: Host, r: nat, work: Work): Host {
    if r !in w.runs || !w.runs[r].Inside? then w
    else
      var phase := w.runs[r];
      var w1 := w.(log := w.log + [Effect(r, work)]);
      match work
      case Snapshot => if phase.saved.Some? then w else w1.(runs := w.runs[r := phase.(saved := Some(w.installed))])
      case Replace => if phase.saved.Some? then w1.(installed := phase.target) else w
      case Restore => if phase.saved.Some? then w1.(installed := phase.saved.value) else w
      case RemoveLock =>
        w1.(lock := false, runs := w.runs[r := Gone],
            history := if w.installed == phase.entry then w.history else w.history + [w.installed])
      case _ => w1
  }

  /** A process may die at any point; its lock file stays. */
  function Step(w: Host, e: Event): Host {
    match e
    case Begin(r, target, requested) => BeginStep(w, r, target, requested)
    case Do(r, work) => if work == TakeLock then LockStep(w, r) else WorkStep(w, r, work)
    case Die(r) => w.(runs := w.runs[r := Gone])
  }

  function After(v: Version, events: seq<Event>): Host {
    if events == [] then NewHost(v) else Step(After(v, events[..|events| - 1]), events[|events| - 1])
  }

  /** Who goes on: for conforming versions, an updater asked for its target by name, and
      one whose target has precedence over what is installed. */
  lemma BeginExact(w: Host, r: nat, target: Version, requested: bool)
    requires r !in w.runs && Conforming(w.installed) && Conforming(target)
    ensures var w' := BeginStep(w, r, target, requested);
            && r in w'.runs && (w'.runs[r].Checked? <==> requested || Precedes(w.installed, target))
            && (w'.runs[r].Checked? ==> w'.runs[r] == Checked(w.installed, target))
            && (!w'.runs[r].Checked? ==> w'.runs[r].Gone?)
  {
    ComparisonIsPrecedence(w.installed, target);
    CompareRange(w.installed, target);
  }

  /** The same decision as that of an update started from the installed binary. */
  lemma BeginDecides(w: Host, r: nat, target: Version, o: U.Options, order: Option<int>)
    requires r !in w.runs && !o.checkOnly && order == Some(CompareOf(w.installed, target))
    ensures BeginStep(w, r, target, o.requested != []).runs[r].Checked? <==> U.DecisionOf(order, o).Proceed?
  {
  }

  // ---------- Mutual exclusion ----------

  predicate Holds(w: Host, r: nat) {
    r in w.runs && w.runs[r].Inside?
  }

  /** The effects of one updater lie together. */
  predicate Contiguous(log: seq<Effect>) {
    forall i, j, k :: 0 <= i <= j <= k < |log| && log[i].run == log[k].run ==> log[j].run == log[i].run
  }

  /** Once an updater has had an effect, all later effects are its own. */
  predicate LastIn(log: seq<Effect>, r: nat) {
    forall i, j :: 0 <= i <= j < |log| && log[i].run == r ==> log[j].run == r
  }

  ghost predicate Exclusive(w: Host) {
    && (forall r :: Holds(w, r) ==> w.lock)
    && (forall r, s :: Holds(w, r) && Holds(w, s) ==> r == s)
    && (forall i :: 0 <= i < |w.log| ==> w.log[i].run in w.runs && !w.runs[w.log[i].run].Checked?)
    && (forall r :: Holds(w, r) ==> LastIn(w.log, r))
    && Contiguous(w.log)
  }

  lemma AppendContiguous(log: seq<Effect>, e: Effect)
    requires Contiguous(log) && LastIn(log, e.run)
    ensures Contiguous(log + [e]) && LastIn(log + [e], e.run)
  {
  }

  lemma LockExclusive(w: Host, r: nat)
    requires Exclusive(w)
    ensures Exclusive(LockStep(w, r))
  {
    assert forall s :: Holds(LockStep(w, r), s) ==> s == r || Holds(w, s);
    if r in w.runs && w.runs[r].Checked? && !w.lock {
      AppendContiguous(w.log, Effect(r, TakeLock));
    }
  }

  lemma WorkExclusive(w: Host, r: nat, work: Work)
    requires Exclusive(w)
    ensures Exclusive(WorkStep(w, r, work))
  {
    if Holds(w, r) {
      AppendContiguous(w.log, Effect(r, work));
      var w' := WorkStep(w, r, work);
      assert forall s :: Holds(w', s) ==> s == r || Holds(w, s);
    }
  }

  /** Starting or losing an updater puts nobody inside. */
  lemma OtherExclusive(w: Host, e: Event)
    requires Exclusive(w) && !e.Do?
    ensures Exclusive(Step(w, e))
  {
    assert forall s :: Holds(Step(w, e), s) ==> Holds(w, s);
  }

  /** In every interleaving of any number of updaters, whichever of them die, at most
      one holds the lock at a time and what they do with it never overlaps. */
  lemma {:induction false} NeverOverlap(v: Version, events: seq<Event>)
    ensures Exclusive(After(v, events))
  {
    if events != [] {
      var init := events[..|events| - 1];
      NeverOverlap(v, init);
      match events[|events| - 1]
      case Do(r, work) =>
        if work == TakeLock { LockExclusive(After(v, init), r); } else { WorkExclusive(After(v, init), r, work); }
      case _ => OtherExclusive(After(v, init), events[|events| - 1]);
    }
  }

  // ---------- Snapshots stay true ----------

  /** The binary is what the last finished update left, or what the updater inside found
      or brings; its snapshot is what it found, so that restoring brings that back. */
  ghost predicate Consistent(w: Host) {
    && w.history != [] && (!w.lock ==> w.installed == Newest(w.history))
    && (forall r :: Holds(w, r) ==> ConsistentPhase(w, w.runs[r]))
  }

  function Newest(history: seq<Version>): Version
    requires history != []
  {
    history[|history| - 1]
  }

  ghost predicate ConsistentPhase(w: Host, p: Phase)
    requires p.Inside? && w.history != []
  {
    && p.entry == Newest(w.history) && (w.installed == p.entry || (p.saved.Some? && w.installed == p.target))
    && (p.saved.Some? ==> p.saved.value == p.entry)
  }

  lemma WorkConsistent(w: Host, r: nat, work: Work)
    requires Exclusive(w) && Consistent(w) && work != TakeLock
    ensures Consistent(WorkStep(w, r, work))
  {
    var w' := WorkStep(w, r, work);
    if Holds(w, r) {
      assert ConsistentPhase(w, w.runs[r]);
      forall s | Holds(w', s) ensures ConsistentPhase(w', w'.runs[s]) {
        assert Holds(w, s) && s == r;
      }
    }
  }

  lemma LockConsistent(w: Host, r: nat)
    requires Exclusive(w) && Consistent(w)
    ensures Consistent(LockStep(w, r))
  {
    var w' := LockStep(w, r);
    forall s | Holds(w', s) ensures ConsistentPhase(w', w'.runs[s]) {
      if s != r {
        assert Holds(w, s);
      }
    }
  }

  lemma StepConsistent(w: Host, e: Event)
    requires Exclusive(w) && Consistent(w)
    ensures Consistent(Step(w, e))
  {
    match e
    case Do(r, work) => if work == TakeLock { LockConsistent(w, r); } else { WorkConsistent(w, r, work); }
    case _ =>
      var w' := Step(w, e);
      forall s | Holds(w', s) ensures ConsistentPhase(w', w'.runs[s]) {
        assert Holds(w, s) && w'.runs[s] == w.runs[s];
      }
  }

  lemma {:induction false} AlwaysConsistent(v: Version, events: seq<Event>)
    ensures Consistent(After(v, events))
  {
    if events != [] {
      AlwaysConsistent(v, events[..|events| - 1]);
      NeverOverlap(v, events[..|events| - 1]);
      StepConsistent(After(v, events[..|events| - 1]), events[|events| - 1]);
    }
  }

  // ---------- When versions ascend ----------

  /** The event ends an update that leaves another version than it found. */
  predicate Finishes(w: Host, e: Event) {
    e.Do? && e.work == RemoveLock && Holds(w, e.run) && w.installed != w.runs[e.run].entry
  }

  /** Every update that leaves another version had, when it took the lock, a target greater
      than what was installed then. */
  ghost predicate Guarded(v: Version, events: seq<Event>) {
    if events == [] then true
    else
      var w, e := After(v, events[..|events| - 1]), events[|events| - 1];
      && Guarded(v, events[..|events| - 1])
      && (Finishes(w, e) ==> CompareOf(w.runs[e.run].entry, w.runs[e.run].target) == -1)
  }

  predicate Strictly(history: seq<Version>) {
    forall i, j :: 0 <= i < j < |history| ==> CompareOf(history[i], history[j]) == -1
  }

  /** Every version in sight conforms. */
  ghost predicate AllConforming(w: Host) {
    && (forall v :: v in w.history ==> Conforming(v)) && Conforming(w.installed)
    && (forall r :: r in w.runs && !w.runs[r].Gone? ==> Conforming(w.runs[r].target))
    && (forall r :: Holds(w, r) && w.runs[r].saved.Some? ==> Conforming(w.runs[r].saved.value))
  }

  lemma StrictlyAppend(history: seq<Version>, v: Version)
    requires history != [] && Conforming(v) && forall x :: x in history ==> Conforming(x)
    ensures Strictly(history + [v]) <==> Strictly(history) && CompareOf(Newest(history), v) == -1
  {
    var all := history + [v];
    if Strictly(all) {
      assert all[|history| - 1] == Newest(history) && all[|history|] == v;
      assert forall i :: 0 <= i < |history| ==> all[i] == history[i];
    }
    if Strictly(history) && CompareOf(Newest(history), v) == -1 {
      forall i | 0 <= i < |history| - 1 ensures CompareOf(history[i], v) == -1 {
        ComparisonTransitive(history[i], Newest(history), v);
      }
    }
  }

  lemma StepConforms(w: Host, e: Event)
    requires AllConforming(w) && (e.Begin? ==> Conforming(e.target))
    ensures AllConforming(Step(w, e))
  {
    match e
    case Do(r, work) => WorkConforms(w, r, work);
    case _ => assert forall r :: Holds(Step(w, e), r) ==> Holds(w, r);
  }

  lemma WorkConforms(w: Host, r: nat, work: Work)
    requires AllConforming(w)
    ensures AllConforming(Step(w, Do(r, work)))
  {
    var w' := Step(w, Do(r, work));
    assert forall s :: Holds(w', s) ==> Holds(w, s) || (s == r && w'.runs[s].saved.None?);
    assert forall s :: s in w'.runs && s != r ==> s in w.runs && w'.runs[s] == w.runs[s];
  }

  lemma StepHistory(w: Host, e: Event)
    requires Consistent(w)
    ensures Step(w, e).history == if Finishes(w, e) then w.history + [w.runs[e.run].target] else w.history
    ensures Finishes(w, e) ==> w.runs[e.run].entry == Newest(w.history)
  {
  }

  /** In every interleaving of updates, requested or not, the versions that they leave
      behind strictly ascend, so that none ever comes back, if and only if each of them
      was greater than what was installed when its updater took the lock. */
  lemma {:induction false} VersionsAscend(v: Version, events: seq<Event>)
    requires Conforming(v) && forall e :: e in events && e.Begin? ==> Conforming(e.target)
    ensures AllConforming(After(v, events))
    ensures Strictly(After(v, events).history) <==> Guarded(v, events)
  {
    if events != [] {
      var init, e := events[..|events| - 1], events[|events| - 1];
      assert e in events && forall x :: x in init ==> x in events;
      var w := After(v, init);
      VersionsAscend(v, init);
      AlwaysConsistent(v, init);
      StepConforms(w, e);
      StepHistory(w, e);
      if Finishes(w, e) {
        StrictlyAppend(w.history, w.runs[e.run].target);
      }
    }
  }

  // ---------- Updates one after another ----------

  /** The updater takes the lock while the version it compared is still installed. */
  predicate Fresh(w: Host, e: Event) {
    e.Do? && e.work == TakeLock && e.run in w.runs && w.runs[e.run].Checked? && !w.lock ==>
      w.runs[e.run].current == w.installed
  }

  /** Nothing was asked for by name, and every lock was taken on the binary compared. */
  ghost predicate FreshRun(v: Version, events: seq<Event>) {
    events == []
    || (FreshRun(v, events[..|events| - 1])
        && (events[|events| - 1].Begin? ==> !events[|events| - 1].requested)
        && Fresh(After(v, events[..|events| - 1]), events[|events| - 1]))
  }

  /** Every target is greater than the version it was compared with or will replace. */
  ghost predicate Climbing(w: Host) {
    && (forall r :: r in w.runs && w.runs[r].Checked? ==> CompareOf(w.runs[r].current, w.runs[r].target) == -1)
    && (forall r :: Holds(w, r) ==> CompareOf(w.runs[r].entry, w.runs[r].target) == -1)
  }

  lemma StepClimbs(w: Host, e: Event)
    requires Climbing(w) && Fresh(w, e) && (e.Begin? ==> !e.requested)
    ensures Climbing(Step(w, e))
  {
    if e.Begin? {
      CompareRange(w.installed, e.target);
    }
    assert forall r :: Holds(Step(w, e), r) ==> Holds(w, r) || (e.Do? && e.run == r && e.work == TakeLock);
  }

  /** Unrequested updates that each lock while the binary they were started from is still
      installed are guarded, so that the versions they leave behind strictly ascend. */
  lemma {:induction false} FreshAscends(v: Version, events: seq<Event>)
    requires FreshRun(v, events)
    ensures Climbing(After(v, events)) && Guarded(v, events)
  {
    if events != [] {
      FreshAscends(v, events[..|events| - 1]);
      StepClimbs(After(v, events[..|events| - 1]), events[|events| - 1]);
    }
  }

  /** Side by side, the lock alone does not ensure this: the comparison is made before
      the lock is taken, so that an updater which waited may install a smaller version
      over a greater one. */
  lemma StaleCheckDowngrades(v: Version, low: Version, high: Version)
    requires CompareOf(v, low) == -1 && CompareOf(v, high) == -1 && v != high && low != high
    ensures exists events :: After(v, events).history == [v, high, low]
  {
    var both := [Begin(0, high, false), Begin(1, low, false)];
    AfterAppend(v, [], both[0]);
    AfterAppend(v, [both[0]], both[1]);
    assert [] + [both[0]] == [both[0]] && [both[0]] + [both[1]] == both;
    var w := NewHost(v).(runs := map[0 := Checked(v, high), 1 := Checked(v, low)]);
    assert After(v, both) == w;
    var first := UpdateBy(v, both, 0);
    var second := UpdateBy(v, first, 1);
    assert After(v, second).history == [v, high, low];
  }

  /** An update that goes through, with nothing else in between. */
  lemma UpdateBy(v: Version, events: seq<Event>, r: nat) returns (more: seq<Event>)
    requires var w := After(v, events); r in w.runs && w.runs[r].Checked? && !w.lock && w.runs[r].target != w.installed
    ensures var w, w' := After(v, events), After(v, more);
            && !w'.lock && w'.installed == w.runs[r].target && w'.runs == w.runs[r := Gone]
            && w'.history == w.history + [w.runs[r].target]
  {
    var w, locked := After(v, events), events + [Do(r, TakeLock)];
    var saved := locked + [Do(r, Snapshot)];
    var replaced := saved + [Do(r, Replace)];
    more := replaced + [Do(r, RemoveLock)];
    AfterAppend(v, events, Do(r, TakeLock));
    AfterAppend(v, locked, Do(r, Snapshot));
    AfterAppend(v, saved, Do(r, Replace));
    AfterAppend(v, replaced, Do(r, RemoveLock));
    assert After(v, replaced).history == w.history && After(v, replaced).installed == w.runs[r].target;
    assert After(v, more).runs == w.runs[r := Gone];
  }

  lemma AfterAppend(v: Version, events: seq<Event>, e: Event)
    ensures After(v, events + [e]) == Step(After(v, events), e)
  {
    assert (events + [e])[..|events|] == events;
  }
}

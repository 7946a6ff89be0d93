/**
 Startup migration against Postgres: any number of instances, one session advisory lock,
 a version table, and crashes between any two statements. A statement or commit may also
 fail after it has taken effect, when the connection is lost before the answer arrives.
 Instances of different releases may run together: `ms` is the longest list, and each
 instance was built with a prefix of it.
 */
module PgMigration {
  import opened Sets

  datatype Migration = Migration(version: int, concurrent: bool)

  type Instance = nat

  /** Where one instance stands; `i` is the next migration and `current` the version it read. */
  datatype Phase =
    | Waiting                       // for the advisory lock
    | Creating                      // CREATE TABLE IF NOT EXISTS
    | Reading                       // SELECT COALESCE(MAX(version), 0)
    | At(i: nat, current: int)      // top of the loop
    | Begun(i: nat, current: int)   // in a transaction, nothing run yet
    | Applied(i: nat, current: int) // statements run, version not yet inserted
    | Noted(i: nat, current: int)   // version inserted, not yet committed
    | Built(i: nat, current: int)   // concurrent statements run, version not yet inserted
    | Unlocking(success: bool)
    | Returned(success: bool)
    | Dead

  datatype State = State(
    upto: Instance -> nat,     // how many migrations each instance was built with
    phase: map<Instance, Phase>,
    holder: set<Instance>,     // sessions holding the advisory lock
    versions: set<int>,        // rows of the version table, none while it does not exist
    commits: multiset<int>,    // history: transactional migrations that took effect
    builds: multiset<int>,     // history: concurrent migrations whose statements returned success
    collisions: nat)           // history: inserts of a version already in the table

  datatype Answer = Ok | Failed(tookEffect: bool)

  datatype Label =
    | Start(n: Instance)
    | Acquire(n: Instance)
    | AcquireFails(n: Instance)
    | CreateTable(n: Instance, a: Answer)
    | ReadMax(n: Instance, ok: bool)
    | Skip(n: Instance)
    | Begin(n: Instance, ok: bool)
    | Execute(n: Instance, ok: bool)
    | Insert(n: Instance, ok: bool)
    | Commit(n: Instance, a: Answer)
    | Build(n: Instance, ok: bool)
    | Record(n: Instance, a: Answer)
    | Finish(n: Instance)
    | Unlock(n: Instance)
    | Crash(n: Instance)

  predicate Ascending(ms: seq<Migration>) {
    forall i, j | 0 <= i < j < |ms| :: ms[i].version < ms[j].version
  }

  predicate Holds(p: Phase) {
    !p.Waiting? && !p.Returned? && !p.Dead?
  }

  /** COALESCE(MAX(version), 0) */
  ghost predicate IsMax(versions: set<int>, m: int) {
    if versions == {} then m == 0 else m in versions && forall v | v in versions :: v <= m
  }

  lemma {:induction false} MaxExists(versions: set<int>)
    ensures exists m :: IsMax(versions, m)
  {
    if |versions| == 0 {
      assert IsMax(versions, 0);
    } else {
      var v := Pick(versions);
      var rest := versions - {v};
      assert forall u | u in versions :: u == v || u in rest;
      MaxExists(rest);
      var m :| IsMax(rest, m);
      assert IsMax(versions, if rest == {} || v > m then v else m);
    }
  }

  ghost function MaxVersion(versions: set<int>): (m: int)
    ensures IsMax(versions, m)
  {
    MaxExists(versions);
    var m :| IsMax(versions, m);
    m
  }

  /** The length of the instance's own list. */
  function Own(ms: seq<Migration>, s: State, n: Instance): (k: nat)
    ensures k <= |ms|
  {
    if s.upto(n) <= |ms| then s.upto(n) else |ms|
  }

  predicate Enabled(ms: seq<Migration>, s: State, l: Label) {
    match l
    case Start(n) => n !in s.phase
    case Acquire(n) => n in s.phase && s.phase[n].Waiting? && s.holder == {}
    case AcquireFails(n) => n in s.phase && s.phase[n].Waiting?
    case CreateTable(n, _) => n in s.phase && s.phase[n].Creating?
    case ReadMax(n, _) => n in s.phase && s.phase[n].Reading?
    case Skip(n) =>
      n in s.phase && s.phase[n].At? && s.phase[n].i < Own(ms, s, n) && ms[s.phase[n].i].version <= s.phase[n].current
    case Begin(n, _) =>
      n in s.phase && s.phase[n].At? && s.phase[n].i < Own(ms, s, n)
      && ms[s.phase[n].i].version > s.phase[n].current && !ms[s.phase[n].i].concurrent
    case Execute(n, _) => n in s.phase && s.phase[n].Begun?
    case Insert(n, _) => n in s.phase && s.phase[n].Applied? && s.phase[n].i < |ms|
    case Commit(n, _) => n in s.phase && s.phase[n].Noted? && s.phase[n].i < |ms|
    case Build(n, _) =>
      n in s.phase && s.phase[n].At? && s.phase[n].i < Own(ms, s, n)
      && ms[s.phase[n].i].version > s.phase[n].current && ms[s.phase[n].i].concurrent
    case Record(n, _) => n in s.phase && s.phase[n].Built? && s.phase[n].i < |ms|
    case Finish(n) => n in s.phase && s.phase[n].At? && s.phase[n].i >= Own(ms, s, n)
    case Unlock(n) => n in s.phase && s.phase[n].Unlocking?
    case Crash(n) => n in s.phase && !s.phase[n].Returned? && !s.phase[n].Dead?
  }

  function Move(s: State, n: Instance, p: Phase): State {
    s.(phase := s.phase[n := p])
  }

  ghost function Step(ms: seq<Migration>, s: State, l: Label): State
    requires Enabled(ms, s, l)
  {
    match l
    case Start(n) => Move(s, n, Waiting)
    case Acquire(n) => Move(s, n, Creating).(holder := s.holder + {n})
    case AcquireFails(n) => Move(s, n, Returned(false))
    case CreateTable(n, a) =>
      Move(s, n, if a.Ok? then Reading else Unlocking(false))
    case ReadMax(n, ok) => Move(s, n, if ok then At(0, MaxVersion(s.versions)) else Unlocking(false))
    case Skip(n) => Move(s, n, At(s.phase[n].i + 1, s.phase[n].current))
    case Begin(n, ok) => Move(s, n, if ok then Begun(s.phase[n].i, s.phase[n].current) else Unlocking(false))
    case Execute(n, ok) => Move(s, n, if ok then Applied(s.phase[n].i, s.phase[n].current) else Unlocking(false))
    case Insert(n, ok) =>
      if ms[s.phase[n].i].version in s.versions then Move(s, n, Unlocking(false)).(collisions := s.collisions + 1)
      else Move(s, n, if ok then Noted(s.phase[n].i, s.phase[n].current) else Unlocking(false))
    case Commit(n, a) =>
      var p := s.phase[n];
      var t := Move(s, n, if a.Ok? then At(p.i + 1, p.current) else Unlocking(false));
      if a.Ok? || a.tookEffect
      then t.(versions := s.versions + {ms[p.i].version}, commits := s.commits + multiset{ms[p.i].version})
      else t
    case Build(n, ok) =>
      var p := s.phase[n];
      if ok then Move(s, n, Built(p.i, p.current)).(builds := s.builds + multiset{ms[p.i].version})
      else Move(s, n, Unlocking(false))
    case Record(n, a) =>
      var p := s.phase[n];
      var t := Move(s, n, if a.Ok? then At(p.i + 1, p.current) else Unlocking(false));
      if ms[p.i].version in s.versions then Move(s, n, Unlocking(false)).(collisions := s.collisions + 1)
      else if a.Ok? || a.tookEffect then t.(versions := s.versions + {ms[p.i].version})
      else t
    case Finish(n) => Move(s, n, Unlocking(true))
    case Unlock(n) => Move(s, n, Returned(s.phase[n].success)).(holder := s.holder - {n})
    case Crash(n) => Move(s, n, Dead).(holder := s.holder - {n})
  }

  ghost predicate Runs(ms: seq<Migration>, s: State, ls: seq<Label>)
    decreases |ls|
  {
    ls == [] || (Enabled(ms, s, ls[0]) && Runs(ms, Step(ms, s, ls[0]), ls[1..]))
  }

  ghost function Final(ms: seq<Migration>, s: State, ls: seq<Label>): State
    requires Runs(ms, s, ls)
    decreases |ls|
  {
    if ls == [] then s else Final(ms, Step(ms, s, ls[0]), ls[1..])
  }

  /** An empty database and no instance started yet. */
  function Fresh(upto: Instance -> nat): State {
    State(upto, map[], {}, {}, multiset{}, multiset{}, 0)
  }

  // ---------------------------------------------------------------------------
  // What every reachable state satisfies
  // ---------------------------------------------------------------------------

  /** Only the lock holder is past the lock, and there is at most one. */
  ghost predicate OneMigrator(s: State) {
    && (forall n | n in s.phase :: Holds(s.phase[n]) <==> n in s.holder)
    && (forall n | n in s.holder :: n in s.phase && s.holder == {n})
  }

  /** The recorded versions are the positive versions of a prefix of the list. */
  ghost predicate RecordedIsPrefix(ms: seq<Migration>, versions: set<int>) {
    && (forall v | v in versions :: v > 0 && exists j :: 0 <= j < |ms| && ms[j].version == v)
    && (forall i, j | 0 <= i < j < |ms| && ms[j].version in versions && ms[i].version > 0 :: ms[i].version in versions)
  }

  predicate Pending(p: Phase) {
    p.Begun? || p.Applied? || p.Noted? || p.Built?
  }

  /** What a migrator in its loop knows about the table. */
  ghost predicate Informed(ms: seq<Migration>, versions: set<int>, p: Phase) {
    (p.At? || Pending(p)) ==>
      && p.i <= |ms| && p.current >= 0
      && (forall j | 0 <= j < |ms| ::
        ms[j].version in versions <==> ms[j].version > 0 && (j < p.i || ms[j].version <= p.current))
      && (Pending(p) ==> p.i < |ms| && ms[p.i].version > p.current && (p.Built? <==> ms[p.i].concurrent))
  }

  ghost predicate AllInformed(ms: seq<Migration>, s: State) {
    forall n | n in s.phase :: Informed(ms, s.versions, s.phase[n])
  }

  ghost predicate AllRecorded(ms: seq<Migration>, k: nat, versions: set<int>)
    requires k <= |ms|
  {
    forall j | 0 <= j < k && ms[j].version > 0 :: ms[j].version in versions
  }

  predicate Succeeded(p: Phase) {
    (p.Unlocking? || p.Returned?) && p.success
  }

  ghost predicate SuccessMeansRecorded(ms: seq<Migration>, s: State) {
    forall n | n in s.phase && Succeeded(s.phase[n]) ::
      AllRecorded(ms, Own(ms, s, n), s.versions)
  }

  /** Transactional migrations took effect once if recorded and never otherwise; concurrent ones were built first. */
  ghost predicate EffectsMatch(ms: seq<Migration>, s: State) {
    && (forall j | 0 <= j < |ms| && !ms[j].concurrent ::
      s.commits[ms[j].version] == if ms[j].version in s.versions then 1 else 0)
    && (forall j | 0 <= j < |ms| && ms[j].concurrent && ms[j].version in s.versions :: s.builds[ms[j].version] >= 1)
    && (forall n | n in s.phase && s.phase[n].Built? && s.phase[n].i < |ms| :: s.builds[ms[s.phase[n].i].version] >= 1)
  }

  ghost predicate Inv(ms: seq<Migration>, s: State) {
    && OneMigrator(s)
    && RecordedIsPrefix(ms, s.versions)
    && AllInformed(ms, s)
    && SuccessMeansRecorded(ms, s)
    && EffectsMatch(ms, s)
    && s.collisions == 0
  }

  /** How a step changes the table and one instance. */
  lemma StepFrame(ms: seq<Migration>, s: State, l: Label)
    requires Enabled(ms, s, l)
    ensures l.n in Step(ms, s, l).phase && Step(ms, s, l).phase == s.phase[l.n := Step(ms, s, l).phase[l.n]]
    ensures s.versions <= Step(ms, s, l).versions && Step(ms, s, l).upto == s.upto
    ensures Step(ms, s, l).versions != s.versions ==> l.Commit? || l.Record?
  {
  }

  lemma StepKeepsOneMigrator(ms: seq<Migration>, s: State, l: Label)
    requires OneMigrator(s) && Enabled(ms, s, l)
    ensures OneMigrator(Step(ms, s, l))
  {
  }

  /** A version is added only by the holder, and it is the next one. */
  lemma StepAddsNext(ms: seq<Migration>, s: State, l: Label)
    requires Enabled(ms, s, l)
    ensures l.Commit? || l.Record? ==> s.phase[l.n].i < |ms|
    ensures Step(ms, s, l).versions == s.versions
         || ((l.Commit? || l.Record?) && Step(ms, s, l).versions == s.versions + {ms[s.phase[l.n].i].version})
  {
  }

  lemma AddingNextKeepsPrefix(ms: seq<Migration>, versions: set<int>, p: Phase)
    requires Ascending(ms) && RecordedIsPrefix(ms, versions) && Informed(ms, versions, p) && Pending(p)
    ensures RecordedIsPrefix(ms, versions + {ms[p.i].version})
    ensures ms[p.i].version !in versions
  {
  }

  lemma StepKeepsPrefix(ms: seq<Migration>, s: State, l: Label)
    requires Ascending(ms) && Inv(ms, s) && Enabled(ms, s, l)
    ensures RecordedIsPrefix(ms, Step(ms, s, l).versions)
  {
    StepAddsNext(ms, s, l);
    if Step(ms, s, l).versions != s.versions {
      AddingNextKeepsPrefix(ms, s.versions, s.phase[l.n]);
    }
  }

  /** Reading the maximum tells exactly which migrations are recorded. */
  lemma MaxInforms(ms: seq<Migration>, versions: set<int>)
    requires Ascending(ms) && RecordedIsPrefix(ms, versions)
    ensures Informed(ms, versions, At(0, MaxVersion(versions)))
  {
    var top := MaxVersion(versions);
    forall j | 0 <= j < |ms| ensures ms[j].version in versions <==> ms[j].version > 0 && ms[j].version <= top {
      if ms[j].version > 0 && ms[j].version <= top {
        assert top in versions;
        var k :| 0 <= k < |ms| && ms[k].version == top;
        assert j <= k;
      }
    }
  }

  lemma SkippingInforms(ms: seq<Migration>, versions: set<int>, p: Phase)
    requires Informed(ms, versions, p) && p.At? && p.i < |ms| && ms[p.i].version <= p.current
    ensures Informed(ms, versions, At(p.i + 1, p.current))
  {
  }

  lemma AddingInforms(ms: seq<Migration>, versions: set<int>, p: Phase)
    requires Ascending(ms) && Informed(ms, versions, p) && Pending(p)
    ensures Informed(ms, versions + {ms[p.i].version}, At(p.i + 1, p.current))
  {
  }

  /** Moving on within one migration, or giving up. */
  lemma StageInforms(ms: seq<Migration>, versions: set<int>, p: Phase, q: Phase)
    requires Informed(ms, versions, p) && (p.At? || Pending(p))
    requires Pending(q) ==>
      q.i == p.i < |ms| && q.current == p.current && ms[p.i].version > p.current && (q.Built? <==> ms[p.i].concurrent)
    requires Pending(q) || q.Unlocking?
    ensures Informed(ms, versions, q)
  {
  }

  lemma StagesOfOneMigration(ms: seq<Migration>, s: State, l: Label)
    requires Enabled(ms, s, l) && (l.Begin? || l.Execute? || l.Insert? || l.Build?)
    requires Informed(ms, s.versions, s.phase[l.n])
    ensures Informed(ms, Step(ms, s, l).versions, Step(ms, s, l).phase[l.n])
  {
    StageInforms(ms, s.versions, s.phase[l.n], Step(ms, s, l).phase[l.n]);
  }

  lemma UnlockingIsInformed(ms: seq<Migration>, versions: set<int>)
    ensures Informed(ms, versions, Unlocking(false)) && Informed(ms, versions, Unlocking(true))
  {
  }

  lemma AdditionsInform(ms: seq<Migration>, s: State, l: Label)
    requires Ascending(ms) && Enabled(ms, s, l) && (l.Commit? || l.Record?)
    requires RecordedIsPrefix(ms, s.versions) && Informed(ms, s.versions, s.phase[l.n])
    ensures Informed(ms, Step(ms, s, l).versions, Step(ms, s, l).phase[l.n])
  {
    hide Informed;
    var p := s.phase[l.n];
    AddingInforms(ms, s.versions, p);
    AddingNextKeepsPrefix(ms, s.versions, p);
    UnlockingIsInformed(ms, Step(ms, s, l).versions);
  }

  lemma OutsideTheLoop(ms: seq<Migration>, s: State, l: Label)
    requires Enabled(ms, s, l)
    requires l.Start? || l.Acquire? || l.AcquireFails? || l.CreateTable? || l.Finish? || l.Unlock? || l.Crash?
    ensures Informed(ms, Step(ms, s, l).versions, Step(ms, s, l).phase[l.n])
  {
  }

  lemma MoverStaysInformed(ms: seq<Migration>, s: State, l: Label)
    requires Ascending(ms) && Inv(ms, s) && Enabled(ms, s, l)
    ensures Informed(ms, Step(ms, s, l).versions, Step(ms, s, l).phase[l.n])
  {
    assert l.n in s.phase ==> Informed(ms, s.versions, s.phase[l.n]);
    assert RecordedIsPrefix(ms, s.versions);
    hide Informed, RecordedIsPrefix, Inv;
    match l
    case ReadMax(n, ok) => MaxInforms(ms, s.versions); UnlockingIsInformed(ms, s.versions);
    case Skip(n) => SkippingInforms(ms, s.versions, s.phase[n]);
    case Begin(_, _) => StagesOfOneMigration(ms, s, l);
    case Execute(_, _) => StagesOfOneMigration(ms, s, l);
    case Insert(_, _) => StagesOfOneMigration(ms, s, l);
    case Build(_, _) => StagesOfOneMigration(ms, s, l);
    case Commit(_, _) => AdditionsInform(ms, s, l);
    case Record(_, _) => AdditionsInform(ms, s, l);
    case _ => OutsideTheLoop(ms, s, l);
  }

  lemma NotInLoopIsInformed(ms: seq<Migration>, versions: set<int>, p: Phase)
    requires !Holds(p)
    ensures Informed(ms, versions, p)
  {
  }

  lemma OnlyHolderAdds(ms: seq<Migration>, s: State, l: Label)
    requires OneMigrator(s) && Enabled(ms, s, l)
    ensures Step(ms, s, l).versions != s.versions ==> forall n | n in s.phase && n != l.n :: !Holds(s.phase[n])
  {
  }

  lemma StepKeepsInformed(ms: seq<Migration>, s: State, l: Label)
    requires Ascending(ms) && Inv(ms, s) && Enabled(ms, s, l)
    ensures AllInformed(ms, Step(ms, s, l))
  {
    var t := Step(ms, s, l);
    StepFrame(ms, s, l);
    MoverStaysInformed(ms, s, l);
    OnlyHolderAdds(ms, s, l);
    hide Step, Enabled, Informed, RecordedIsPrefix, SuccessMeansRecorded, EffectsMatch;
    forall n | n in t.phase ensures Informed(ms, t.versions, t.phase[n]) {
      if n != l.n {
        assert Informed(ms, s.versions, s.phase[n]);
        if t.versions != s.versions {
          NotInLoopIsInformed(ms, t.versions, s.phase[n]);
        }
      }
    }
  }

  lemma SuccessComesFromFinish(ms: seq<Migration>, s: State, l: Label)
    requires Enabled(ms, s, l)
    ensures l.n in Step(ms, s, l).phase
    ensures Succeeded(Step(ms, s, l).phase[l.n]) ==>
      && l.n in s.phase
      && (Succeeded(s.phase[l.n]) || (l.Finish? && s.phase[l.n].At? && s.phase[l.n].i >= Own(ms, s, l.n)))
  {
  }

  lemma StepKeepsSuccess(ms: seq<Migration>, s: State, l: Label)
    requires Ascending(ms) && Inv(ms, s) && Enabled(ms, s, l)
    ensures SuccessMeansRecorded(ms, Step(ms, s, l))
  {
    var t := Step(ms, s, l);
    StepFrame(ms, s, l);
    SuccessComesFromFinish(ms, s, l);
    hide Step, Enabled, RecordedIsPrefix, EffectsMatch, OneMigrator;
    forall n | n in t.phase && Succeeded(t.phase[n]) ensures AllRecorded(ms, Own(ms, t, n), t.versions) {
      assert n in s.phase && Own(ms, t, n) == Own(ms, s, n);
      if n == l.n && !Succeeded(s.phase[n]) {
        assert Informed(ms, s.versions, s.phase[n]);
      } else {
        assert AllRecorded(ms, Own(ms, s, n), s.versions);
      }
    }
  }

  lemma StepKeepsCommits(ms: seq<Migration>, s: State, l: Label)
    requires Ascending(ms) && Inv(ms, s) && Enabled(ms, s, l)
    ensures forall j | 0 <= j < |ms| && !ms[j].concurrent ::
      Step(ms, s, l).commits[ms[j].version] == if ms[j].version in Step(ms, s, l).versions then 1 else 0
  {
    if l.Commit? || l.Record? {
      assert Informed(ms, s.versions, s.phase[l.n]);
      AddingNextKeepsPrefix(ms, s.versions, s.phase[l.n]);
    } else {
      assert Step(ms, s, l).versions == s.versions && Step(ms, s, l).commits == s.commits;
    }
  }

  lemma BuildsGrow(ms: seq<Migration>, s: State, l: Label)
    requires Enabled(ms, s, l)
    ensures forall v :: s.builds[v] <= Step(ms, s, l).builds[v]
    ensures var p := Step(ms, s, l).phase[l.n];
      p.Built? && p.i < |ms| ==> Step(ms, s, l).builds[ms[p.i].version] >= 1
  {
  }

  lemma StepKeepsBuilds(ms: seq<Migration>, s: State, l: Label)
    requires Ascending(ms) && Inv(ms, s) && Enabled(ms, s, l)
    ensures var t := Step(ms, s, l);
      && (forall j | 0 <= j < |ms| && ms[j].concurrent && ms[j].version in t.versions :: t.builds[ms[j].version] >= 1)
      && (forall n | n in t.phase && t.phase[n].Built? && t.phase[n].i < |ms| ::
        t.builds[ms[t.phase[n].i].version] >= 1)
  {
    StepAddsNext(ms, s, l);
    BuildsGrow(ms, s, l);
    StepFrame(ms, s, l);
    if l.Commit? || l.Record? {
      assert Informed(ms, s.versions, s.phase[l.n]);
    }
  }

  /** An insert never meets its own version in the table. */
  lemma StepNeverCollides(ms: seq<Migration>, s: State, l: Label)
    requires Ascending(ms) && Inv(ms, s) && Enabled(ms, s, l)
    ensures Step(ms, s, l).collisions == 0
  {
    if l.Insert? || l.Record? {
      assert Informed(ms, s.versions, s.phase[l.n]);
      AddingNextKeepsPrefix(ms, s.versions, s.phase[l.n]);
    }
  }

  lemma StepKeepsInv(ms: seq<Migration>, s: State, l: Label)
    requires Ascending(ms) && Inv(ms, s) && Enabled(ms, s, l)
    ensures Inv(ms, Step(ms, s, l))
  {
    hide Step, Enabled;
    StepKeepsOneMigrator(ms, s, l);
    StepKeepsPrefix(ms, s, l);
    StepKeepsInformed(ms, s, l);
    StepKeepsSuccess(ms, s, l);
    StepKeepsCommits(ms, s, l);
    StepKeepsBuilds(ms, s, l);
    StepNeverCollides(ms, s, l);
  }

  lemma {:induction false} RunKeepsInv(ms: seq<Migration>, s: State, ls: seq<Label>)
    requires Ascending(ms) && Inv(ms, s) && Runs(ms, s, ls)
    ensures Inv(ms, Final(ms, s, ls))
    decreases |ls|
  {
    if ls != [] {
      StepKeepsInv(ms, s, ls[0]);
      RunKeepsInv(ms, Step(ms, s, ls[0]), ls[1..]);
    }
  }

  // ---------------------------------------------------------------------------
  // Whole runs
  // ---------------------------------------------------------------------------

  lemma FreshSatisfiesInv(ms: seq<Migration>, upto: Instance -> nat)
    ensures Inv(ms, Fresh(upto))
  {
  }

  /**
   From an empty database, whatever the instances, their releases, failures and crashes: one
   migrator at a time, recorded versions always a prefix of the longest list, no insert ever
   collides, transactional migrations take effect exactly once, concurrent ones are recorded
   only after their statements returned success.
   */
  lemma MigrationIsSafe(ms: seq<Migration>, upto: Instance -> nat, ls: seq<Label>)
    requires Ascending(ms) && Runs(ms, Fresh(upto), ls)
    ensures var t := Final(ms, Fresh(upto), ls);
      && (forall m, n | m in t.phase && n in t.phase && Holds(t.phase[m]) && Holds(t.phase[n]) :: m == n)
      && RecordedIsPrefix(ms, t.versions)
      && t.collisions == 0
      && (forall j | 0 <= j < |ms| && !ms[j].concurrent ::
        t.commits[ms[j].version] == if ms[j].version in t.versions then 1 else 0)
      && (forall j | 0 <= j < |ms| && ms[j].concurrent && ms[j].version in t.versions :: t.builds[ms[j].version] >= 1)
  {
    FreshSatisfiesInv(ms, upto);
    RunKeepsInv(ms, Fresh(upto), ls);
  }

  lemma {:induction false} RunKeepsUpto(ms: seq<Migration>, s: State, ls: seq<Label>)
    requires Runs(ms, s, ls)
    ensures Final(ms, s, ls).upto == s.upto
    decreases |ls|
  {
    if ls != [] {
      StepFrame(ms, s, ls[0]);
      RunKeepsUpto(ms, Step(ms, s, ls[0]), ls[1..]);
    }
  }

  /** A successful return means the instance's own list is recorded, exactly when all its versions are positive. */
  lemma SuccessRecordsAllIff(ms: seq<Migration>, upto: Instance -> nat, ls: seq<Label>, n: Instance)
    requires Ascending(ms) && Runs(ms, Fresh(upto), ls) && upto(n) <= |ms|
    requires n in Final(ms, Fresh(upto), ls).phase && Final(ms, Fresh(upto), ls).phase[n] == Returned(true)
    ensures (forall j | 0 <= j < upto(n) :: ms[j].version in Final(ms, Fresh(upto), ls).versions)
      <==> (forall j | 0 <= j < upto(n) :: ms[j].version > 0)
  {
    FreshSatisfiesInv(ms, upto);
    RunKeepsInv(ms, Fresh(upto), ls);
    RunKeepsUpto(ms, Fresh(upto), ls);
    var t := Final(ms, Fresh(upto), ls);
    assert AllRecorded(ms, Own(ms, t, n), t.versions);
  }

  // ---------------------------------------------------------------------------
  // After a failure
  // ---------------------------------------------------------------------------

  /** A statement of the migration, after the lock, that reports an error. */
  predicate ReportsError(l: Label) {
    || (l.CreateTable? && l.a != Ok) || (l.ReadMax? && !l.ok)
    || (l.Begin? && !l.ok) || (l.Execute? && !l.ok) || (l.Insert? && !l.ok) || (l.Commit? && l.a != Ok)
    || (l.Build? && !l.ok) || (l.Record? && l.a != Ok)
  }

  /** What is left of a start that failed. */
  predicate Ending(p: Phase) {
    p == Unlocking(false) || p == Returned(false) || p == Dead
  }

  lemma ErrorUnlocks(ms: seq<Migration>, s: State, l: Label)
    requires Enabled(ms, s, l) && ReportsError(l)
    ensures l.n in Step(ms, s, l).phase && Step(ms, s, l).phase[l.n] == Unlocking(false)
  {
  }

  lemma EndingStep(ms: seq<Migration>, s: State, l: Label, n: Instance)
    requires Enabled(ms, s, l) && n in s.phase && Ending(s.phase[n])
    ensures n in Step(ms, s, l).phase
    ensures l.n != n ==> Step(ms, s, l).phase[n] == s.phase[n]
    ensures l.n == n ==> s.phase[n] == Unlocking(false) && (l == Unlock(n) || l == Crash(n))
    ensures l.n == n ==> Step(ms, s, l).phase[n] == if l == Unlock(n) then Returned(false) else Dead
  {
  }

  lemma {:induction false} EndingRun(ms: seq<Migration>, s: State, ls: seq<Label>, n: Instance)
    requires Runs(ms, s, ls) && n in s.phase && Ending(s.phase[n])
    ensures forall l | l in ls && l.n == n :: l == Unlock(n) || l == Crash(n)
    ensures n in Final(ms, s, ls).phase
    ensures var p := Final(ms, s, ls).phase[n];
      && Ending(p)
      && (s.phase[n] != Unlocking(false) ==> p == s.phase[n] && Unlock(n) !in ls && Crash(n) !in ls)
      && (s.phase[n] == Unlocking(false) ==> (p == Returned(false) <==> Unlock(n) in ls))
      && (s.phase[n] == Unlocking(false) ==> (p == Dead <==> Crash(n) in ls))
    decreases |ls|
  {
    hide Step, Enabled;
    if ls != [] {
      EndingStep(ms, s, ls[0], n);
      EndingRun(ms, Step(ms, s, ls[0]), ls[1..], n);
      assert forall l :: l in ls <==> l == ls[0] || l in ls[1..];
    }
  }

  /**
   One statement that reports an error ends the start: the instance only unlocks, which returns the error, or crashes,
   whatever else happens in the fleet, and it runs nothing more.
   */
  lemma ErrorEndsTheStart(ms: seq<Migration>, s: State, l: Label, ls: seq<Label>)
    requires Runs(ms, s, [l] + ls)
    requires
      || (l.CreateTable? && l.a != Ok) || (l.ReadMax? && !l.ok)
      || (l.Begin? && !l.ok) || (l.Execute? && !l.ok) || (l.Insert? && !l.ok) || (l.Commit? && l.a != Ok)
      || (l.Build? && !l.ok) || (l.Record? && l.a != Ok)
    ensures forall k | k in ls && k.n == l.n :: k == Unlock(l.n) || k == Crash(l.n)
    ensures l.n in Final(ms, s, [l] + ls).phase
    ensures var p := Final(ms, s, [l] + ls).phase[l.n];
      && (p == Returned(false) <==> Unlock(l.n) in ls)
      && (p == Dead <==> Crash(l.n) in ls)
      && (p == Unlocking(false) <==> Unlock(l.n) !in ls && Crash(l.n) !in ls)
  {
    assert ([l] + ls)[1..] == ls;
    ErrorUnlocks(ms, s, l);
    hide Step, Enabled;
    EndingRun(ms, Step(ms, s, l), ls, l.n);
  }

  lemma RunOne(ms: seq<Migration>, s: State, l: Label, rest: seq<Label>)
    requires Enabled(ms, s, l) && Runs(ms, Step(ms, s, l), rest)
    ensures Runs(ms, s, [l] + rest) && Final(ms, s, [l] + rest) == Final(ms, Step(ms, s, l), rest)
  {
    assert ([l] + rest)[1..] == rest;
  }

  /** A migrator in its loop that meets no failure gets through the rest of the list. */
  lemma LoopCompletes(ms: seq<Migration>, s: State, n: Instance) returns (ls: seq<Label>)
    requires Ascending(ms) && Inv(ms, s) && n in s.phase && s.phase[n].At?
    ensures Runs(ms, s, ls) && n in Final(ms, s, ls).phase && Final(ms, s, ls).phase[n] == Returned(true)
    decreases |ms| - s.phase[n].i, 0
  {
    assert Informed(ms, s.versions, s.phase[n]);
    var i, current := s.phase[n].i, s.phase[n].current;
    if i >= Own(ms, s, n) {
      var s1 := Step(ms, s, Finish(n));
      RunOne(ms, s1, Unlock(n), []);
      RunOne(ms, s, Finish(n), [Unlock(n)] + []);
      ls := [Finish(n)] + ([Unlock(n)] + []);
    } else if ms[i].version <= current {
      ls := LoopFrom(ms, s, Skip(n), n);
    } else if ms[i].concurrent {
      ls := BuildCompletes(ms, s, n);
    } else {
      ls := TransactionCompletes(ms, s, n);
    }
  }

  lemma LoopFrom(ms: seq<Migration>, s: State, l: Label, n: Instance) returns (ls: seq<Label>)
    requires Ascending(ms) && Inv(ms, s) && Enabled(ms, s, l) && l.n == n
    requires Step(ms, s, l).phase[n].At? && Step(ms, s, l).phase[n].i <= |ms|
    ensures Runs(ms, s, ls) && n in Final(ms, s, ls).phase && Final(ms, s, ls).phase[n] == Returned(true)
    decreases |ms| - Step(ms, s, l).phase[n].i, 1
  {
    StepKeepsInv(ms, s, l);
    var rest := LoopCompletes(ms, Step(ms, s, l), n);
    RunOne(ms, s, l, rest);
    ls := [l] + rest;
  }

  lemma NoCollisions(ms: seq<Migration>, s: State)
    requires Inv(ms, s)
    ensures s.collisions == 0
  {
  }

  lemma BuildCompletes(ms: seq<Migration>, s: State, n: Instance) returns (ls: seq<Label>)
    requires Ascending(ms) && Inv(ms, s) && Enabled(ms, s, Build(n, true))
    ensures Runs(ms, s, ls) && n in Final(ms, s, ls).phase && Final(ms, s, ls).phase[n] == Returned(true)
    decreases |ms| - s.phase[n].i - 1, 2
  {
    hide Inv;
    var s1 := Step(ms, s, Build(n, true));
    StepKeepsInv(ms, s, Build(n, true));
    StepNeverCollides(ms, s1, Record(n, Ok));
    NoCollisions(ms, s1);
    var rest := LoopFrom(ms, s1, Record(n, Ok), n);
    RunOne(ms, s, Build(n, true), rest);
    ls := [Build(n, true)] + rest;
  }

  lemma TransactionCompletes(ms: seq<Migration>, s: State, n: Instance) returns (ls: seq<Label>)
    requires Ascending(ms) && Inv(ms, s) && Enabled(ms, s, Begin(n, true))
    ensures Runs(ms, s, ls) && n in Final(ms, s, ls).phase && Final(ms, s, ls).phase[n] == Returned(true)
    decreases |ms| - s.phase[n].i - 1, 2
  {
    hide Inv;
    var s1 := Step(ms, s, Begin(n, true));
    var s2 := Step(ms, s1, Execute(n, true));
    StepKeepsInv(ms, s, Begin(n, true));
    StepKeepsInv(ms, s1, Execute(n, true));
    var s3 := Step(ms, s2, Insert(n, true));
    StepKeepsInv(ms, s2, Insert(n, true));
    NoCollisions(ms, s2);
    NoCollisions(ms, s3);
    var rest := LoopFrom(ms, s3, Commit(n, Ok), n);
    RunOne(ms, s2, Insert(n, true), rest);
    RunOne(ms, s1, Execute(n, true), [Insert(n, true)] + rest);
    RunOne(ms, s, Begin(n, true), [Execute(n, true)] + ([Insert(n, true)] + rest));
    ls := [Begin(n, true)] + ([Execute(n, true)] + ([Insert(n, true)] + rest));
  }

  /** Wherever earlier instances failed or crashed, a new one that meets no failure finishes the job. */
  lemma RestartCompletes(ms: seq<Migration>, s: State, n: Instance) returns (ls: seq<Label>)
    requires Ascending(ms) && Inv(ms, s) && s.holder == {} && n !in s.phase
    ensures Runs(ms, s, ls) && n in Final(ms, s, ls).phase && Final(ms, s, ls).phase[n] == Returned(true)
  {
    hide Inv;
    var s1 := Step(ms, s, Start(n));
    var s2 := Step(ms, s1, Acquire(n));
    var s3 := Step(ms, s2, CreateTable(n, Ok));
    StepKeepsInv(ms, s, Start(n));
    StepKeepsInv(ms, s1, Acquire(n));
    StepKeepsInv(ms, s2, CreateTable(n, Ok));
    var rest := LoopFrom(ms, s3, ReadMax(n, true), n);
    RunOne(ms, s2, CreateTable(n, Ok), rest);
    RunOne(ms, s1, Acquire(n), [CreateTable(n, Ok)] + rest);
    RunOne(ms, s, Start(n), [Acquire(n)] + ([CreateTable(n, Ok)] + rest));
    ls := [Start(n)] + ([Acquire(n)] + ([CreateTable(n, Ok)] + rest));
  }

  /** Whoever lists a version that is not positive can start successfully without ever applying it. */
  lemma NonPositiveIsNeverApplied(ms: seq<Migration>, upto: Instance -> nat, n: Instance, j: nat)
      returns (ls: seq<Label>)
    requires Ascending(ms) && j < upto(n) <= |ms| && ms[j].version <= 0
    ensures Runs(ms, Fresh(upto), ls)
    ensures var t := Final(ms, Fresh(upto), ls);
      && n in t.phase && t.phase[n] == Returned(true)
      && ms[j].version !in t.versions && (!ms[j].concurrent ==> t.commits[ms[j].version] == 0)
  {
    FreshSatisfiesInv(ms, upto);
    ls := RestartCompletes(ms, Fresh(upto), n);
    RunKeepsInv(ms, Fresh(upto), ls);
  }
}

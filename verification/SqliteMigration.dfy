/**
 Startup migration against SQLite: one process at a time, each migration and its version
 bump in one transaction. An attempt may stop anywhere; the next start tries again.
 */
module SqliteMigration {

  /** How one migration's transaction ends. */
  datatype Fate =
    | Commits
    | RollsBack     // an error or a crash before the commit took effect
    | Interrupted   // the commit took effect, but the attempt never learned it

  datatype Db = Db(userVersion: int, effects: seq<int>)

  datatype Outcome = Outcome(db: Db, success: bool)

  predicate Ascending(ms: seq<int>) {
    forall i, j | 0 <= i < j < |ms| :: ms[i] < ms[j]
  }

  function FateOf(fates: seq<Fate>): Fate {
    if fates == [] then Commits else fates[0]
  }

  function Rest(fates: seq<Fate>): seq<Fate> {
    if fates == [] then [] else fates[1..]
  }

  function Commit(db: Db, version: int): Db {
    Db(version, db.effects + [version])
  }

  /** The loop from migration i on; `current` was read before it began. */
  function From(ms: seq<int>, i: nat, current: int, db: Db, fates: seq<Fate>): Outcome
    decreases |ms| - i
  {
    if i >= |ms| then Outcome(db, true)
    else if ms[i] <= current then From(ms, i + 1, current, db, fates)
    else
      match FateOf(fates)
      case Commits => From(ms, i + 1, current, Commit(db, ms[i]), Rest(fates))
      case RollsBack => Outcome(db, false)
      case Interrupted => Outcome(Commit(db, ms[i]), false)
  }

  function Attempt(ms: seq<int>, db: Db, fates: seq<Fate>): Outcome {
    From(ms, 0, db.userVersion, db, fates)
  }

  // ---------------------------------------------------------------------------
  // One start, in terms of the list and of how its transactions end
  // ---------------------------------------------------------------------------

  /** The versions of the list above `version`, in list order. */
  function Above(ms: seq<int>, version: int): (p: seq<int>)
    ensures forall v :: v in p <==> v in ms && v > version
  {
    if ms == [] then []
    else
      var rest := Above(ms[1..], version);
      assert ms == [ms[0]] + ms[1..];
      if ms[0] > version then [ms[0]] + rest else rest
  }

  lemma {:induction false} AboveIsAscending(ms: seq<int>, version: int)
    requires Ascending(ms)
    ensures Ascending(Above(ms, version))
  {
    if ms != [] {
      var rest := Above(ms[1..], version);
      AboveIsAscending(ms[1..], version);
      forall i | 0 <= i < |rest| ensures ms[0] < rest[i] {
        assert rest[i] in ms[1..];
      }
    }
  }

  /** What is left to do from entry i on: its own entry first, if that is pending, then the others. */
  lemma AboveFrom(ms: seq<int>, i: nat, version: int)
    requires i <= |ms|
    ensures Above(ms[i..], version) ==
      if i == |ms| then [] else (if ms[i] > version then [ms[i]] else []) + Above(ms[i + 1..], version)
  {
    if i < |ms| {
      assert ms[i..][1..] == ms[i + 1..];
    }
  }

  lemma OneCommitFirst(before: seq<int>, v: int, p: seq<int>, n: nat, last: seq<int>)
    requires n <= |p|
    ensures before + [v] + p[..n] + last == before + ([v] + p)[..n + 1] + last
  {
    assert ([v] + p)[..n + 1] == [v] + p[..n];
  }

  lemma OneFateFirst(fates: seq<Fate>, p: seq<int>, v: int, n: nat)
    requires FateOf(fates) == Commits && n <= |p|
    requires forall k | 0 <= k < n && k < |Rest(fates)| :: Rest(fates)[k] == Commits
    requires n < |p| ==> n < |Rest(fates)| && Rest(fates)[n] != Commits
    ensures forall k | 0 <= k < n + 1 && k < |fates| :: fates[k] == Commits
    ensures n < |p| ==> n + 1 < |fates| && fates[n + 1] == Rest(fates)[n] && ([v] + p)[n + 1] == p[n]
  {
    assert fates != [] ==> fates == [Commits] + Rest(fates);
  }

  /** `n` counts the transactions that commit and are known to have. */
  lemma {:induction false} LoopApplies(ms: seq<int>, i: nat, current: int, db: Db, fates: seq<Fate>) returns (n: nat)
    requires i <= |ms|
    ensures var p, o := Above(ms[i..], current), From(ms, i, current, db, fates);
      && n <= |p|
      && (forall k | 0 <= k < n && k < |fates| :: fates[k] == Commits)
      && (n < |p| ==> n < |fates| && fates[n] != Commits)
      && (o.success <==> n == |p|)
      && o.db.effects == db.effects + p[..n] + (if n < |p| && fates[n] == Interrupted then [p[n]] else [])
      && o.db.userVersion == (
        if n < |p| && fates[n] == Interrupted then p[n] else if n > 0 then p[n - 1] else db.userVersion)
    decreases |ms| - i
  {
    AboveFrom(ms, i, current);
    n := 0;
    if i < |ms| {
      hide Above;
      if ms[i] <= current {
        n := LoopApplies(ms, i + 1, current, db, fates);
      } else if FateOf(fates) == Commits {
        n := LoopApplies(ms, i + 1, current, Commit(db, ms[i]), Rest(fates));
        var p := Above(ms[i + 1..], current);
        OneCommitFirst(db.effects, ms[i], p, n, if n < |p| && Rest(fates)[n] == Interrupted then [p[n]] else []);
        OneFateFirst(fates, p, ms[i], n);
        hide Rest, FateOf;
        n := n + 1;
      }
    }
  }

  /**
   A start applies the pending versions in list order, up to the first transaction that does not plainly commit: rolled
   back it leaves nothing, interrupted it leaves its own version. The start succeeds exactly when there is none such,
   and then nothing in the list is above the recorded version.
   */
  lemma AttemptApplies(ms: seq<int>, db: Db, fates: seq<Fate>) returns (n: nat)
    ensures var p, o := Above(ms, db.userVersion), Attempt(ms, db, fates);
      && n <= |p|
      && (forall k | 0 <= k < n && k < |fates| :: fates[k] == Commits)
      && (n < |p| ==> n < |fates| && fates[n] != Commits)
      && (o.success <==> n == |p|)
      && o.db.effects == db.effects + p[..n] + (if n < |p| && fates[n] == Interrupted then [p[n]] else [])
      && o.db.userVersion == (
        if n < |p| && fates[n] == Interrupted then p[n] else if n > 0 then p[n - 1] else db.userVersion)
      && (o.success && Ascending(ms) ==> forall v | v in ms :: v <= o.db.userVersion)
  {
    assert ms[0..] == ms;
    n := LoopApplies(ms, 0, db.userVersion, db, fates);
    var p, o := Above(ms, db.userVersion), Attempt(ms, db, fates);
    if o.success && Ascending(ms) {
      AboveIsAscending(ms, db.userVersion);
      forall v | v in ms ensures v <= o.db.userVersion {
        assert n > 0 ==> p[n - 1] in p;
        if v > db.userVersion {
          assert v in p;
          var k :| 0 <= k < |p| && p[k] == v;
          assert k < n - 1 ==> p[k] < p[n - 1];
        }
      }
    }
  }

  class Database {
    var userVersion: int
    ghost var effects: seq<int>

    constructor ()
      ensures View() == Db(0, [])
    {
      userVersion, effects := 0, [];
    }

    ghost function View(): Db
      reads this
    {
      Db(userVersion, effects)
    }

    /** `n` counts the transactions that commit and are known to have; what `fates` does not cover commits. */
    method Migrate(ms: seq<int>, fates: seq<Fate>) returns (success: bool, ghost n: nat)
      modifies this
      ensures Outcome(View(), success) == Attempt(ms, old(View()), fates)
      ensures var p := Above(ms, old(userVersion));
        && n <= |p|
        && (forall k | 0 <= k < n && k < |fates| :: fates[k] == Commits)
        && (n < |p| ==> n < |fates| && fates[n] != Commits)
        && (success <==> n == |p|)
        && effects == old(effects) + p[..n] + (if n < |p| && fates[n] == Interrupted then [p[n]] else [])
        && userVersion == (
          if n < |p| && fates[n] == Interrupted then p[n] else if n > 0 then p[n - 1] else old(userVersion))
      ensures success && Ascending(ms) ==> forall v | v in ms :: v <= userVersion
      ensures fates == [] ==> success
    {
      n := AttemptApplies(ms, View(), fates);
      var current := userVersion;
      var left := fates;
      for i := 0 to |ms|
        invariant From(ms, i, current, View(), left) == Attempt(ms, old(View()), fates)
      {
        if ms[i] <= current {
          continue;
        }
        var fate := FateOf(left);
        if fate.RollsBack? {
          success := false;
          return;
        }
        userVersion, effects := ms[i], effects + [ms[i]];
        if fate.Interrupted? {
          success := false;
          return;
        }
        left := Rest(left);
      }
      success := true;
    }
  }

  // ---------------------------------------------------------------------------
  // Exactly once, over any number of attempts
  // ---------------------------------------------------------------------------

  /** The migrations a database at `version` has had, in list order. */
  function UpTo(ms: seq<int>, version: int): seq<int> {
    if ms == [] then []
    else
      var last := ms[|ms| - 1];
      UpTo(ms[..|ms| - 1], version) + if 0 < last <= version then [last] else []
  }

  /** Effects are exactly the positive migrations up to the recorded version, each once, in order. */
  ghost predicate Consistent(ms: seq<int>, db: Db) {
    && db.userVersion >= 0
    && (db.userVersion == 0 || db.userVersion in ms)
    && db.effects == UpTo(ms, db.userVersion)
  }

  lemma {:induction false} UpToUnchanged(ms: seq<int>, u: int, v: int)
    requires u <= v && forall j | 0 <= j < |ms| :: ms[j] <= u
    ensures UpTo(ms, u) == UpTo(ms, v)
  {
    if ms != [] {
      UpToUnchanged(ms[..|ms| - 1], u, v);
    }
  }

  /** Moving to the next pending migration adds just that one. */
  lemma {:induction false} UpToNext(ms: seq<int>, i: nat, u: int)
    requires Ascending(ms) && i < |ms| && 0 <= u < ms[i] && forall j | 0 <= j < i :: ms[j] <= u
    ensures UpTo(ms, ms[i]) == UpTo(ms, u) + [ms[i]]
    decreases |ms|
  {
    var rest := ms[..|ms| - 1];
    if i == |ms| - 1 {
      UpToUnchanged(rest, u, ms[i]);
    } else {
      UpToNext(rest, i, u);
    }
  }

  lemma CommitKeepsConsistent(ms: seq<int>, i: nat, db: Db)
    requires Ascending(ms) && i < |ms| && Consistent(ms, db)
    requires db.userVersion < ms[i] && forall j | 0 <= j < i :: ms[j] <= db.userVersion
    ensures Consistent(ms, Commit(db, ms[i])) && db.effects <= Commit(db, ms[i]).effects
  {
    UpToNext(ms, i, db.userVersion);
  }

  /** One attempt by a release whose list is the first k entries of `ms`. */
  lemma {:induction false} LoopKeepsConsistent(ms: seq<int>, k: nat, i: nat, current: int, db: Db, fates: seq<Fate>)
    requires Ascending(ms) && i <= k <= |ms| && Consistent(ms, db) && 0 <= current <= db.userVersion
    requires forall j | 0 <= j < i :: ms[j] <= db.userVersion
    requires forall j | i <= j < k && ms[j] > current :: ms[j] > db.userVersion
    ensures var o := From(ms[..k], i, current, db, fates);
      && Consistent(ms, o.db)
      && db.effects <= o.db.effects
      && (o.success ==> forall j | 0 <= j < k :: ms[j] <= o.db.userVersion)
    decreases k - i
  {
    hide Consistent;
    if i < k {
      assert ms[..k][i] == ms[i];
      if ms[i] <= current {
        LoopKeepsConsistent(ms, k, i + 1, current, db, fates);
      } else if !FateOf(fates).RollsBack? {
        CommitKeepsConsistent(ms, i, db);
        LoopKeepsConsistent(ms, k, i + 1, current, Commit(db, ms[i]), Rest(fates));
      }
    }
  }

  /**
   A start of some release, with the failures it meets: releases append to the list, so each has a
   prefix of the longest.
   */
  datatype Start = Start(upto: nat, fates: seq<Fate>)

  function Own(ms: seq<int>, start: Start): seq<int> {
    if start.upto <= |ms| then ms[..start.upto] else ms
  }

  /** A database after any number of starts, of older and newer releases in any order. */
  function After(ms: seq<int>, starts: seq<Start>): (db: Db) {
    if starts == [] then Db(0, [])
    else
      var last := starts[|starts| - 1];
      Attempt(Own(ms, last), After(ms, starts[..|starts| - 1]), last.fates).db
  }

  lemma NothingUpToZero(ms: seq<int>)
    ensures UpTo(ms, 0) == []
  {
  }

  lemma AttemptKeepsConsistent(ms: seq<int>, start: Start, db: Db)
    requires Ascending(ms) && Consistent(ms, db)
    ensures var own, o := Own(ms, start), Attempt(Own(ms, start), db, start.fates);
      && Consistent(ms, o.db)
      && db.effects <= o.db.effects
      && (o.success ==> forall v | v in own :: v <= o.db.userVersion)
  {
    var k := |Own(ms, start)|;
    assert Own(ms, start) == ms[..k];
    assert forall j | 0 <= j < k && ms[j] > db.userVersion :: ms[j] > db.userVersion;
    LoopKeepsConsistent(ms, k, 0, db.userVersion, db, start.fates);
  }

  lemma {:induction false} StartsStayConsistent(ms: seq<int>, starts: seq<Start>)
    requires Ascending(ms)
    ensures Consistent(ms, After(ms, starts))
    decreases |starts|
  {
    if starts == [] {
      NothingUpToZero(ms);
    } else {
      StartsStayConsistent(ms, starts[..|starts| - 1]);
      AttemptKeepsConsistent(ms, starts[|starts| - 1], After(ms, starts[..|starts| - 1]));
    }
  }

  lemma {:induction false} UpToIsAscending(ms: seq<int>, version: int)
    requires Ascending(ms)
    ensures Ascending(UpTo(ms, version))
    ensures forall v :: v in UpTo(ms, version) <==> v in ms && 0 < v <= version
    decreases |ms|
  {
    if ms != [] {
      var rest, last := ms[..|ms| - 1], ms[|ms| - 1];
      UpToIsAscending(rest, version);
      assert ms == rest + [last];
      forall i | 0 <= i < |UpTo(rest, version)| ensures UpTo(rest, version)[i] < last {
        var x := UpTo(rest, version)[i];
        assert x in UpTo(rest, version);
        var k :| 0 <= k < |rest| && rest[k] == x;
        assert ms[k] == x;
      }
    }
  }

  /**
   However often startup fails and is tried again, by older and newer releases, no migration
   takes effect twice, the effects are those of the positive versions up to user_version and
   no others, and once a start succeeds every positive version of its own list has taken effect.
   */
  lemma ExactlyOnce(ms: seq<int>, starts: seq<Start>, last: Start)
    requires Ascending(ms)
    ensures var own, o := Own(ms, last), Attempt(Own(ms, last), After(ms, starts), last.fates);
      && Ascending(o.db.effects)
      && (forall v :: v in o.db.effects <==> v in ms && 0 < v <= o.db.userVersion)
      && (o.success ==> forall v | v in own && v > 0 :: v in o.db.effects)
      && After(ms, starts).effects <= o.db.effects
  {
    StartsStayConsistent(ms, starts);
    AttemptKeepsConsistent(ms, last, After(ms, starts));
    UpToIsAscending(ms, Attempt(Own(ms, last), After(ms, starts), last.fates).db.userVersion);
    assert forall v | v in Own(ms, last) :: v in ms;
  }
}

/**
 The migration runner under crashes: files are applied in order and recorded one by one, the first
 file bootstraps the bookkeeping, and a run may stop after any effect and be started again.
 */
module Migrations {

  /** One file of the schema directory. */
  datatype Migration = Migration(name: string, checksum: string, statements: seq<string>)

  /** What a run does to the server. */
  datatype Effect =
    | Exec(file: string, statement: string)
    | CreateBookkeeping
    | Record(file: string, checksum: string)

  type Recorded = map<string, string>

  /** The directory lists each file name once. */
  predicate Distinct(dir: seq<Migration>) {
    forall i, j :: 0 <= i < j < |dir| ==> dir[i].name != dir[j].name
  }

  predicate UpToDate(m: Migration, r: Recorded) {
    m.name in r && r[m.name] == m.checksum
  }

  predicate Drifted(m: Migration, r: Recorded) {
    m.name in r && r[m.name] != m.checksum
  }

  // ---- What a run that is not interrupted does

  function Execs(m: Migration): (es: seq<Effect>)
    ensures |es| == |m.statements|
  {
    seq(|m.statements|, i requires 0 <= i < |m.statements| => Exec(m.name, m.statements[i]))
  }

  function RecordOf(m: Migration): Effect {
    Record(m.name, m.checksum)
  }

  /** The first file is always executed, and recorded unless it is up to date. */
  function BootPlan(m: Migration, r: Recorded): seq<Effect> {
    Execs(m) + [CreateBookkeeping] + if UpToDate(m, r) then [] else [RecordOf(m)]
  }

  /** Any other file is executed and recorded only when nothing is recorded under its name. */
  function FilePlan(m: Migration, r: Recorded): seq<Effect> {
    if m.name in r then [] else Execs(m) + [RecordOf(m)]
  }

  function Part(dir: seq<Migration>, r: Recorded, i: nat): seq<Effect>
    requires i < |dir|
  {
    if i == 0 then BootPlan(dir[0], r) else FilePlan(dir[i], r)
  }

  /** The effects for the first n files. */
  function PlanUpTo(dir: seq<Migration>, r: Recorded, n: nat): seq<Effect>
    requires n <= |dir|
  {
    if n == 0 then [] else PlanUpTo(dir, r, n - 1) + Part(dir, r, n - 1)
  }

  function Plan(dir: seq<Migration>, r: Recorded): seq<Effect> {
    if dir == [] then [CreateBookkeeping] else PlanUpTo(dir, r, |dir|)
  }

  function RecordedBy(r: Recorded, log: seq<Effect>): Recorded
    decreases |log|
  {
    if log == [] then r
    else
      var before := RecordedBy(r, log[..|log| - 1]);
      var e := log[|log| - 1];
      if e.Record? then before[e.file := e.checksum] else before
  }

  /** The effects that happen before the run is cut off. */
  function CutOff(es: seq<Effect>, budget: nat): seq<Effect> {
    if budget < |es| then es[..budget] else es
  }

  datatype Class = Applied | Skipped | Drift

  function ClassOf(dir: seq<Migration>, r: Recorded, i: nat): Class
    requires i < |dir|
  {
    if UpToDate(dir[i], r) then Skipped
    else if i > 0 && dir[i].name in r then Drift
    else Applied
  }

  /** The names, among the first n files, of those in a class. */
  function Names(dir: seq<Migration>, r: Recorded, c: Class, n: nat): seq<string>
    requires n <= |dir|
  {
    if n == 0 then []
    else Names(dir, r, c, n - 1) + if ClassOf(dir, r, n - 1) == c then [dir[n - 1].name] else []
  }

  datatype Outcome =
    | Crashed
    | Done(applied: seq<string>, skipped: seq<string>, drifted: seq<string>)

  // ---- The runner

  /** The server, and how many more effects it will take before the run is cut off. */
  class Server {
    var log: seq<Effect>
    var recorded: Recorded
    var left: nat

    /** The log grows by the effects, and the bookkeeping follows them. */
    twostate predicate Did(es: seq<Effect>)
      reads this
    {
      && log == old(log) + es
      && recorded == RecordedBy(old(recorded), es)
      && left + |es| == old(left)
    }

    method Do(e: Effect) returns (ok: bool)
      modifies this
      ensures ok == (old(left) > 0)
      ensures Did(if ok then [e] else [])
    {
      ok := left > 0;
      if ok {
        log := log + [e];
        left := left - 1;
        if e.Record? {
          recorded := recorded[e.file := e.checksum];
        }
        assert [e][..0] == [];
      }
    }

    method RunStatements(m: Migration) returns (ok: bool)
      modifies this
      ensures ok == (old(left) >= |m.statements|)
      ensures Did(CutOff(Execs(m), old(left)))
    {
      ghost var es := Execs(m);
      for i := 0 to |m.statements|
        invariant left + i == old(left) && recorded == old(recorded)
        invariant log == old(log) + es[..i]
      {
        NoRecords(recorded, es, i);
        NoRecords(recorded, [es[i]], 1);
        assert [es[i]][..1] == [es[i]];
        var fine := Do(Exec(m.name, m.statements[i]));
        if !fine {
          return false;
        }
        assert es[..i + 1] == es[..i] + [es[i]];
      }
      NoRecords(recorded, es, |es|);
      assert es[..|es|] == es;
      return true;
    }

    /** Run a pending file's statements, then record it. */
    method ApplyFile(m: Migration) returns (ok: bool)
      modifies this
      ensures ok == (old(left) >= |Execs(m) + [RecordOf(m)]|)
      ensures Did(CutOff(Execs(m) + [RecordOf(m)], old(left)))
    {
      ok := RunStatements(m);
      CutOffAppend(Execs(m), [RecordOf(m)], old(left));
      if ok {
        ghost var after := recorded;
        RecordedAppend(old(recorded), Execs(m), [RecordOf(m)]);
        ok := Do(RecordOf(m));
        assert recorded == RecordedBy(after, if ok then [RecordOf(m)] else []);
      }
    }

    /** The first file's statements, the bookkeeping table, then what was recorded before this run. */
    method Bootstrap(m: Migration) returns (ok: bool, already: Recorded)
      modifies this
      ensures ok == (old(left) >= |BootPlan(m, old(recorded))|)
      ensures Did(CutOff(BootPlan(m, old(recorded)), old(left)))
      ensures ok ==> already == old(recorded)
    {
      hide Execs, RecordedBy, CutOff, BootPlan;
      already := map[];
      BootSteps(m, recorded, left);
      ghost var log0, es := log, Execs(m);
      ok := RunStatements(m);
      if ok {
        ok := Do(CreateBookkeeping);
        assert log == log0 + (es + if ok then [CreateBookkeeping] else []);
      }
      if ok {
        already := recorded;
        if !UpToDate(m, already) {
          ok := Do(RecordOf(m));
          assert log == log0 + (es + [CreateBookkeeping] + if ok then [RecordOf(m)] else []);
        }
      }
    }

    /**
     One run: exactly the planned effects, in order, up to where it is cut off; the classification
     is reported only by a run that finished.
     */
    method ApplyAll(dir: seq<Migration>) returns (outcome: Outcome)
      modifies this
      ensures Did(CutOff(Plan(dir, old(recorded)), old(left)))
      ensures outcome.Crashed? <==> old(left) < |Plan(dir, old(recorded))|
      ensures outcome.Done? ==>
                && outcome.applied == Names(dir, old(recorded), Applied, |dir|)
                && outcome.skipped == Names(dir, old(recorded), Skipped, |dir|)
                && outcome.drifted == Names(dir, old(recorded), Drift, |dir|)
    {
      hide Execs, RecordedBy, CutOff, BootPlan, PlanUpTo, Plan, Names;
      ghost var start, budget := recorded, left;
      FirstStep(dir, start, budget);
      if dir == [] {
        var fine := Do(CreateBookkeeping);
        return if fine then Done([], [], []) else Crashed;
      }
      var ok, already := Bootstrap(dir[0]);
      if !ok {
        return Crashed;
      }
      var applied, skipped, drifted := [], [], [];
      if UpToDate(dir[0], already) {
        skipped := [dir[0].name];
      } else {
        applied := [dir[0].name];
      }
      for i := 1 to |dir|
        invariant already == start && Did(PlanUpTo(dir, start, i))
        invariant applied == Names(dir, start, Applied, i)
        invariant skipped == Names(dir, start, Skipped, i)
        invariant drifted == Names(dir, start, Drift, i)
      {
        var m := dir[i];
        NextFile(dir, start, i, budget, left);
        if UpToDate(m, already) {
          skipped := skipped + [m.name];
        } else if m.name in already {
          drifted := drifted + [m.name];
        } else {
          ok := ApplyFile(m);
          if !ok {
            return Crashed;
          }
          applied := applied + [m.name];
        }
      }
      PlanPrefix(dir, start, |dir|, budget);
      WholePlan(dir, start, budget);
      return Done(applied, skipped, drifted);
    }

    /** A dry run changes nothing; its one list of pending files holds the drifted ones too. */
    method DryRun(dir: seq<Migration>) returns (applied: seq<string>, skipped: seq<string>)
      ensures applied == Pending(dir, recorded, |dir|)
      ensures skipped == Names(dir, recorded, Skipped, |dir|)
    {
      applied, skipped := [], [];
      for i := 0 to |dir|
        invariant applied == Pending(dir, recorded, i)
        invariant skipped == Names(dir, recorded, Skipped, i)
      {
        if UpToDate(dir[i], recorded) {
          skipped := skipped + [dir[i].name];
        } else {
          applied := applied + [dir[i].name];
        }
      }
    }
  }

  lemma BootSteps(m: Migration, r: Recorded, left: nat)
    ensures |Execs(m)| == |m.statements|
    ensures left < |Execs(m)| ==> CutOff(BootPlan(m, r), left) == CutOff(Execs(m), left)
    ensures left >= |Execs(m)| ==> CutOff(Execs(m), left) == Execs(m)
    ensures left == |Execs(m)| ==> CutOff(BootPlan(m, r), left) == Execs(m) == Execs(m) + []
    ensures RecordedBy(r, Execs(m)) == r == RecordedBy(r, [CreateBookkeeping]) == RecordedBy(r, [])
    ensures UpToDate(m, r) ==> BootPlan(m, r) == Execs(m) + [CreateBookkeeping]
    ensures !UpToDate(m, r) ==> BootPlan(m, r) == Execs(m) + [CreateBookkeeping] + [RecordOf(m)]
    ensures left == |Execs(m)| + 1 ==> CutOff(BootPlan(m, r), left) == Execs(m) + [CreateBookkeeping]
    ensures Execs(m) + [CreateBookkeeping] + [] == Execs(m) + [CreateBookkeeping]
    ensures left >= |BootPlan(m, r)| ==> CutOff(BootPlan(m, r), left) == BootPlan(m, r)
    ensures RecordedBy(r, Execs(m) + [CreateBookkeeping]) == r
    ensures RecordedBy(r, Execs(m) + [CreateBookkeeping] + [RecordOf(m)]) == RecordedBy(r, [RecordOf(m)])
  {
    var head := Execs(m) + [CreateBookkeeping];
    NoRecords(r, Execs(m), |m.statements|);
    NoRecords(r, head, |head|);
    NoRecords(r, [CreateBookkeeping], 1);
    RecordedAppend(r, head, [RecordOf(m)]);
    assert Execs(m)[..|m.statements|] == Execs(m) && head[..|head|] == head;
    assert [CreateBookkeeping][..1] == [CreateBookkeeping];
    hide RecordedBy, Execs;
    CutOffAppend(Execs(m), [CreateBookkeeping], left);
    CutOffAppend(head, if UpToDate(m, r) then [] else [RecordOf(m)], left);
  }

  lemma FirstStep(dir: seq<Migration>, r: Recorded, budget: nat)
    ensures dir == [] ==> CutOff(Plan(dir, r), budget) == (if budget > 0 then [CreateBookkeeping] else [])
                          && |Plan(dir, r)| == 1
    ensures forall c :: Names(dir, r, c, 0) == []
    ensures dir != [] ==>
              && PlanUpTo(dir, r, 1) == BootPlan(dir[0], r)
              && (forall c :: Names(dir, r, c, 1) == if ClassOf(dir, r, 0) == c then [dir[0].name] else [])
              && (if budget < |BootPlan(dir[0], r)|
                  then CutOff(Plan(dir, r), budget) == CutOff(BootPlan(dir[0], r), budget) && budget < |Plan(dir, r)|
                  else CutOff(BootPlan(dir[0], r), budget) == BootPlan(dir[0], r))
  {
    if dir != [] {
      FirstPart(dir, r);
      PlanPrefix(dir, r, 1, budget);
      assert forall c :: Names(dir, r, c, 1) == Names(dir, r, c, 0) + if ClassOf(dir, r, 0) == c then [dir[0].name] else [];
    }
  }

  lemma NextFile(dir: seq<Migration>, r: Recorded, i: nat, budget: nat, left: nat)
    requires 0 < i < |dir| && left + |PlanUpTo(dir, r, i)| == budget
    ensures forall c :: Names(dir, r, c, i + 1)
                        == Names(dir, r, c, i) + if ClassOf(dir, r, i) == c then [dir[i].name] else []
    ensures var done, es := PlanUpTo(dir, r, i), Execs(dir[i]) + [RecordOf(dir[i])];
            if dir[i].name in r then
              PlanUpTo(dir, r, i + 1) == done
            else if left < |es| then
              && CutOff(Plan(dir, r), budget) == done + CutOff(es, left) && budget < |Plan(dir, r)|
              && RecordedBy(r, done + CutOff(es, left)) == RecordedBy(RecordedBy(r, done), CutOff(es, left))
            else
              && CutOff(es, left) == es && PlanUpTo(dir, r, i + 1) == done + es
              && RecordedBy(r, done + es) == RecordedBy(RecordedBy(r, done), es)
  {
    hide RecordedBy;
    var done, es := PlanUpTo(dir, r, i), Execs(dir[i]) + [RecordOf(dir[i])];
    CutOffAppend(done, es, budget);
    RecordedAppend(r, done, CutOff(es, left));
    PlanPrefix(dir, r, i + 1, budget);
    assert done + [] == done;
  }

  lemma WholePlan(dir: seq<Migration>, r: Recorded, budget: nat)
    requires dir != [] && budget >= |PlanUpTo(dir, r, |dir|)|
    ensures Plan(dir, r) == PlanUpTo(dir, r, |dir|) == CutOff(Plan(dir, r), budget)
  {
  }

  lemma {:induction false} NoRecords(r: Recorded, es: seq<Effect>, n: nat)
    requires n <= |es| && forall i :: 0 <= i < |es| ==> !es[i].Record?
    ensures RecordedBy(r, es[..n]) == r
  {
    if n > 0 {
      NoRecords(r, es, n - 1);
      assert es[..n][..n - 1] == es[..n - 1];
    }
  }

  lemma {:induction false} RecordedAppend(r: Recorded, a: seq<Effect>, b: seq<Effect>)
    ensures RecordedBy(r, a + b) == RecordedBy(RecordedBy(r, a), b)
    decreases |b|
  {
    if b == [] {
      assert a + b == a;
    } else {
      assert (a + b)[..|a + b| - 1] == a + b[..|b| - 1];
      RecordedAppend(r, a, b[..|b| - 1]);
    }
  }

  /** Being cut off in a sequence of two parts is being cut off in one of them. */
  lemma CutOffAppend(a: seq<Effect>, b: seq<Effect>, budget: nat)
    ensures CutOff(a + b, budget) == if budget < |a| then CutOff(a, budget) else a + CutOff(b, budget - |a|)
  {
  }

  /** A run that is cut off among the first n files does not see the others. */
  lemma {:induction false} PlanPrefix(dir: seq<Migration>, r: Recorded, n: nat, budget: nat)
    requires 0 < n <= |dir|
    ensures PlanUpTo(dir, r, n) <= Plan(dir, r)
    ensures budget < |PlanUpTo(dir, r, n)| ==> CutOff(Plan(dir, r), budget) == CutOff(PlanUpTo(dir, r, n), budget)
    decreases |dir| - n
  {
    if n < |dir| {
      PlanPrefix(dir, r, n + 1, budget);
    }
  }

  // ---- Any number of runs, each cut off anywhere

  /** The effects of one run after another on a fixed directory. */
  function History(dir: seq<Migration>, r: Recorded, budgets: seq<nat>): seq<Effect>
    decreases |budgets|
  {
    if budgets == [] then []
    else
      var run := CutOff(Plan(dir, r), budgets[0]);
      run + History(dir, RecordedBy(r, run), budgets[1..])
  }

  predicate Concerns(e: Effect, name: string) {
    !e.CreateBookkeeping? && e.file == name
  }

  ghost predicate RanJustBefore(log: seq<Effect>, p: nat, es: seq<Effect>) {
    |es| <= p <= |log| && log[p - |es|..p] == es
  }

  /** What must be complete before file j's record: its statements, and for the first the bookkeeping. */
  function Prelude(dir: seq<Migration>, j: nat): seq<Effect>
    requires j < |dir|
  {
    Execs(dir[j]) + if j == 0 then [CreateBookkeeping] else []
  }

  /** The files that later files wait for: the first, and any that has not drifted. */
  predicate Awaited(dir: seq<Migration>, r: Recorded, i: nat)
    requires i < |dir|
  {
    i == 0 || !Drifted(dir[i], r)
  }

  /**
   What makes effect p of a history safe, should it concern file j: a file other than the first has
   nothing recorded yet, every awaited earlier file is up to date, and a record directly follows all
   of the file's statements.
   */
  ghost predicate SafeAt(dir: seq<Migration>, r: Recorded, log: seq<Effect>, p: nat, j: nat)
    requires p < |log| && j < |dir|
  {
    var now := RecordedBy(r, log[..p]);
    Concerns(log[p], dir[j].name) ==>
      && (j > 0 ==> dir[j].name !in now)
      && (forall i :: 0 <= i < j && Awaited(dir, r, i) ==> UpToDate(dir[i], now))
      && (log[p].Record? ==> log[p] == RecordOf(dir[j]) && RanJustBefore(log, p, Prelude(dir, j)))
  }

  lemma SplitAt(a: seq<Effect>, b: seq<Effect>, p: nat)
    requires p < |a + b|
    ensures p < |a| ==> (a + b)[p] == a[p] && (a + b)[..p] == a[..p]
    ensures p >= |a| ==> (a + b)[p] == b[p - |a|] && (a + b)[..p] == a + b[..p - |a|]
  {
  }

  /** Which file an effect of the plan belongs to, and how far into that file's part it is. */
  lemma {:induction false} Locate(dir: seq<Migration>, r: Recorded, n: nat, p: nat) returns (j: nat, q: nat)
    requires n <= |dir| && p < |PlanUpTo(dir, r, n)|
    ensures j < n && q < |Part(dir, r, j)| && p == |PlanUpTo(dir, r, j)| + q
    ensures PlanUpTo(dir, r, n)[p] == Part(dir, r, j)[q]
    ensures PlanUpTo(dir, r, n)[..p] == PlanUpTo(dir, r, j) + Part(dir, r, j)[..q]
    decreases n
  {
    hide Part;
    var before := PlanUpTo(dir, r, n - 1);
    SplitAt(before, Part(dir, r, n - 1), p);
    if p < |before| {
      j, q := Locate(dir, r, n - 1, p);
    } else {
      j, q := n - 1, p - |before|;
    }
  }

  /** The first n files are done: every awaited one is up to date, and other names are as they were. */
  ghost predicate Settled(dir: seq<Migration>, r: Recorded, n: nat, after: Recorded)
    requires n <= |dir|
  {
    && (forall i :: 0 <= i < n ==> dir[i].name in after)
    && (forall i :: 0 <= i < n && Awaited(dir, r, i) ==> UpToDate(dir[i], after))
    && (forall i :: n <= i < |dir| ==> (dir[i].name in after <==> dir[i].name in r)
                                       && (dir[i].name in r ==> after[dir[i].name] == r[dir[i].name]))
  }

  lemma {:induction false} AfterFiles(dir: seq<Migration>, r: Recorded, n: nat)
    requires n <= |dir| && Distinct(dir)
    ensures Settled(dir, r, n, RecordedBy(r, PlanUpTo(dir, r, n)))
    decreases n
  {
    hide Execs, RecordedBy, Settled, BootPlan, FilePlan;
    if n == 0 {
      SettleNone(dir, r);
    } else if n == 1 {
      BootRecords(dir[0], r);
      FirstPart(dir, r);
      SettleFirst(dir, r);
    } else {
      var before := PlanUpTo(dir, r, n - 1);
      AfterFiles(dir, r, n - 1);
      RecordedAppend(r, before, FilePlan(dir[n - 1], r));
      FileRecords(dir[n - 1], r, RecordedBy(r, before));
      SettleNext(dir, r, n - 1, RecordedBy(r, before));
    }
  }

  lemma FirstPart(dir: seq<Migration>, r: Recorded)
    requires dir != []
    ensures PlanUpTo(dir, r, 1) == BootPlan(dir[0], r)
  {
    hide BootPlan;
    assert PlanUpTo(dir, r, 1) == PlanUpTo(dir, r, 0) + Part(dir, r, 0);
  }

  lemma SettleNone(dir: seq<Migration>, r: Recorded)
    ensures Settled(dir, r, 0, RecordedBy(r, PlanUpTo(dir, r, 0)))
  {
  }

  lemma SettleFirst(dir: seq<Migration>, r: Recorded)
    requires dir != [] && Distinct(dir)
    ensures Settled(dir, r, 1, r[dir[0].name := dir[0].checksum])
  {
  }

  lemma SettleNext(dir: seq<Migration>, r: Recorded, n: nat, now: Recorded)
    requires 0 < n < |dir| && Distinct(dir) && Settled(dir, r, n, now)
    ensures Settled(dir, r, n + 1, if dir[n].name in r then now else now[dir[n].name := dir[n].checksum])
  {
  }

  lemma ExecsRecordNothing(m: Migration, r: Recorded, n: nat)
    requires n <= |m.statements|
    ensures RecordedBy(r, Execs(m)[..n]) == r && Execs(m)[..|m.statements|] == Execs(m)
  {
    NoRecords(r, Execs(m), n);
  }

  lemma BootRecords(m: Migration, r: Recorded)
    ensures RecordedBy(r, BootPlan(m, r)) == r[m.name := m.checksum]
    ensures RecordedBy(r, Execs(m) + [CreateBookkeeping]) == r
  {
    hide RecordedBy;
    var head := Execs(m) + [CreateBookkeeping];
    NoRecords(r, head, |head|);
    assert head[..|head|] == head;
    if UpToDate(m, r) {
      assert BootPlan(m, r) == head;
      assert r[m.name := m.checksum] == r;
    } else {
      RecordedAppend(r, head, [RecordOf(m)]);
      RecordsOne(r, RecordOf(m));
    }
  }

  lemma RecordsOne(r: Recorded, e: Effect)
    requires e.Record?
    ensures RecordedBy(r, [e]) == r[e.file := e.checksum]
  {
    assert [e][..0] == [];
  }

  lemma FileRecords(m: Migration, r: Recorded, now: Recorded)
    ensures RecordedBy(now, FilePlan(m, r)) == if m.name in r then now else now[m.name := m.checksum]
  {
    hide RecordedBy;
    if m.name !in r {
      ExecsRecordNothing(m, now, |m.statements|);
      RecordedAppend(now, Execs(m), [RecordOf(m)]);
      RecordsOne(now, RecordOf(m));
    } else {
      NoRecords(now, [], 0);
      assert [][..0] == FilePlan(m, r);
    }
  }

  /** Every effect of one uninterrupted run is safe. */
  lemma PlanIsSafe(dir: seq<Migration>, r: Recorded, p: nat, j: nat)
    requires Distinct(dir) && j < |dir| && p < |Plan(dir, r)|
    ensures SafeAt(dir, r, Plan(dir, r), p, j)
  {
    hide RecordedBy, PlanUpTo;
    var plan := Plan(dir, r);
    if Concerns(plan[p], dir[j].name) {
      var k, q := Locate(dir, r, |dir|, p);
      PartConcerns(dir, r, k, q);
      assert k == j;
      if j > 0 {
        var before := PlanUpTo(dir, r, j);
        AfterFiles(dir, r, j);
        forall i | 0 <= i < j
          ensures dir[i].name != dir[j].name
        {
        }
        ExecsRecordNothing(dir[j], RecordedBy(r, before), q);
        assert Part(dir, r, j)[..q] == Execs(dir[j])[..q];
        RecordedAppend(r, before, Execs(dir[j])[..q]);
      }
      if plan[p].Record? {
        assert plan[p - |Prelude(dir, j)|..p] == plan[..p][p - |Prelude(dir, j)|..];
      }
    }
  }

  /** Inside a file's part: its statements first, then its record. */
  lemma PartConcerns(dir: seq<Migration>, r: Recorded, j: nat, q: nat)
    requires j < |dir| && q < |Part(dir, r, j)|
    ensures var e := Part(dir, r, j)[q];
            && (!e.CreateBookkeeping? ==> e.file == dir[j].name)
            && (e.Record? ==> e == RecordOf(dir[j]) && Part(dir, r, j)[..q] == Prelude(dir, j))
  {
    if Part(dir, r, j)[q].Record? {
      assert q == |Part(dir, r, j)| - 1;
    }
  }

  /** Cutting a run off keeps what is safe safe, since safety only looks back. */
  lemma PrefixIsSafe(dir: seq<Migration>, r: Recorded, log: seq<Effect>, n: nat, p: nat, j: nat)
    requires p < n <= |log| && j < |dir| && SafeAt(dir, r, log, p, j)
    ensures SafeAt(dir, r, log[..n], p, j)
  {
    hide RecordedBy;
    assert log[..n][..p] == log[..p];
    if Concerns(log[p], dir[j].name) && log[p].Record? {
      var k := |Prelude(dir, j)|;
      assert log[..n][p - k..p] == log[p - k..p];
    }
  }

  /** Records of a directory's own files never make one drift. */
  lemma {:induction false} NoNewDrift(m: Migration, r: Recorded, log: seq<Effect>)
    requires forall p :: 0 <= p < |log| && Concerns(log[p], m.name) && log[p].Record? ==> log[p] == RecordOf(m)
    requires !Drifted(m, r)
    ensures !Drifted(m, RecordedBy(r, log))
    decreases |log|
  {
    if log != [] {
      NoNewDrift(m, r, log[..|log| - 1]);
    }
  }

  /** What is safe after a run is safe in the history that includes the run. */
  lemma LaterIsSafe(dir: seq<Migration>, r: Recorded, run: seq<Effect>, rest: seq<Effect>, p: nat, j: nat)
    requires j < |dir| && p < |rest| && SafeAt(dir, RecordedBy(r, run), rest, p, j)
    requires forall i :: 0 <= i < |dir| && Awaited(dir, r, i) ==> Awaited(dir, RecordedBy(r, run), i)
    ensures SafeAt(dir, r, run + rest, |run| + p, j)
  {
    hide RecordedBy;
    var log := run + rest;
    assert log[..|run| + p] == run + rest[..p];
    RecordedAppend(r, run, rest[..p]);
    if Concerns(rest[p], dir[j].name) && rest[p].Record? {
      var k := |Prelude(dir, j)|;
      assert log[|run| + p - k..|run| + p] == rest[p - k..p];
    }
  }

  /** Migrations are safe: so is every effect of every history of runs cut off anywhere. */
  lemma {:induction false} HistoryIsSafe(dir: seq<Migration>, r: Recorded, budgets: seq<nat>, p: nat, j: nat)
    requires Distinct(dir) && j < |dir| && p < |History(dir, r, budgets)|
    ensures SafeAt(dir, r, History(dir, r, budgets), p, j)
    decreases |budgets|
  {
    hide RecordedBy, Plan, SafeAt;
    var plan := Plan(dir, r);
    var run := CutOff(plan, budgets[0]);
    var after := RecordedBy(r, run);
    var rest := History(dir, after, budgets[1..]);
    if p < |run| {
      PlanIsSafe(dir, r, p, j);
      PrefixIsSafe(dir, r, plan, |run|, p, j);
      AsPrefix(dir, r, run, rest, p, j);
    } else {
      AwaitedStays(dir, r, budgets[0]);
      HistoryIsSafe(dir, after, budgets[1..], p - |run|, j);
      LaterIsSafe(dir, r, run, rest, p - |run|, j);
    }
  }

  /**
   Spelled out: wherever a file is recorded in a history, its statements stand directly before, all of
   them and in their order; between them and the first file's record the bookkeeping table is made.
   */
  lemma RecordsFollowStatements(dir: seq<Migration>, r: Recorded, budgets: seq<nat>, p: nat, j: nat)
    requires Distinct(dir) && j < |dir| && p < |History(dir, r, budgets)|
    requires var e := History(dir, r, budgets)[p]; e.Record? && e.file == dir[j].name
    ensures var log, n := History(dir, r, budgets), |dir[j].statements|;
            var before := if j == 0 then n + 1 else n;
            && log[p] == Record(dir[j].name, dir[j].checksum) && before <= p
            && (forall i :: 0 <= i < n ==> log[p - before + i] == Exec(dir[j].name, dir[j].statements[i]))
            && (j == 0 ==> log[p - 1] == CreateBookkeeping)
  {
    hide History;
    HistoryIsSafe(dir, r, budgets, p, j);
    var log, k := History(dir, r, budgets), |Prelude(dir, j)|;
    assert log[p - k..p] == Prelude(dir, j);
    forall i | 0 <= i < k
      ensures log[p - k + i] == Prelude(dir, j)[i]
    {
      assert log[p - k..p][i] == log[p - k + i];
    }
  }

  // ---- What a run reports

  /** The names recorded, in order. */
  function RecordedNames(log: seq<Effect>): seq<string> {
    if log == [] then []
    else
      var e := log[|log| - 1];
      RecordedNames(log[..|log| - 1]) + if e.Record? then [e.file] else []
  }

  lemma {:induction false} RecordedNamesAppend(a: seq<Effect>, b: seq<Effect>)
    ensures RecordedNames(a + b) == RecordedNames(a) + RecordedNames(b)
    decreases |b|
  {
    if b == [] {
      assert a + b == a;
    } else {
      assert (a + b)[..|a + b| - 1] == a + b[..|b| - 1];
      RecordedNamesAppend(a, b[..|b| - 1]);
    }
  }

  lemma {:induction false} NoNames(es: seq<Effect>)
    requires forall i :: 0 <= i < |es| ==> !es[i].Record?
    ensures RecordedNames(es) == []
    decreases |es|
  {
    if es != [] {
      NoNames(es[..|es| - 1]);
    }
  }

  lemma PartNames(dir: seq<Migration>, r: Recorded, i: nat)
    requires i < |dir|
    ensures RecordedNames(Part(dir, r, i)) == if ClassOf(dir, r, i) == Applied then [dir[i].name] else []
  {
    hide RecordedNames, Execs;
    var es := Execs(dir[i]) + if i == 0 then [CreateBookkeeping] else [];
    ExecsAreNoRecords(dir[i]);
    NoNames(es);
    OneName(RecordOf(dir[i]));
    NoNames([]);
    RecordedNamesAppend(es, [RecordOf(dir[i])]);
    if ClassOf(dir, r, i) == Applied {
      assert Part(dir, r, i) == es + [RecordOf(dir[i])];
    } else if i > 0 {
      assert Part(dir, r, i) == [];
    } else {
      assert Part(dir, r, i) == es;
    }
  }

  lemma ExecsAreNoRecords(m: Migration)
    ensures forall i :: 0 <= i < |m.statements| ==> !Execs(m)[i].Record?
  {
  }

  lemma OneName(e: Effect)
    requires e.Record?
    ensures RecordedNames([e]) == [e.file]
  {
    assert [e][..0] == [];
  }

  lemma {:induction false} PlannedNames(dir: seq<Migration>, r: Recorded, n: nat)
    requires n <= |dir|
    ensures RecordedNames(PlanUpTo(dir, r, n)) == Names(dir, r, Applied, n)
  {
    hide Part, ClassOf;
    if n > 0 {
      PlannedNames(dir, r, n - 1);
      PartNames(dir, r, n - 1);
      RecordedNamesAppend(PlanUpTo(dir, r, n - 1), Part(dir, r, n - 1));
    }
  }

  lemma {:induction false} ClassesAdd(dir: seq<Migration>, r: Recorded, c: Class, n: nat)
    requires n <= |dir|
    ensures forall name :: name in Names(dir, r, c, n) <==>
                             exists i :: 0 <= i < n && dir[i].name == name && ClassOf(dir, r, i) == c
    ensures |Names(dir, r, Applied, n)| + |Names(dir, r, Skipped, n)| + |Names(dir, r, Drift, n)| == n
  {
    hide ClassOf;
    if n > 0 {
      ClassesAdd(dir, r, c, n - 1);
      forall name
        ensures name in Names(dir, r, c, n) <==>
                  exists i :: 0 <= i < n && dir[i].name == name && ClassOf(dir, r, i) == c
      {
        if name in Names(dir, r, c, n - 1) {
          var i :| 0 <= i < n - 1 && dir[i].name == name && ClassOf(dir, r, i) == c;
        }
      }
    }
  }

  /**
   A finished run's report: applied are the files it recorded, in that order. Every file is in one
   list; skipped are those recorded as they stand, drifted those but the first that are recorded
   otherwise, and applied the others.
   */
  lemma ReportIsTrue(dir: seq<Migration>, r: Recorded, name: string)
    ensures RecordedNames(Plan(dir, r)) == Names(dir, r, Applied, |dir|)
    ensures |Names(dir, r, Applied, |dir|)| + |Names(dir, r, Skipped, |dir|)| + |Names(dir, r, Drift, |dir|)| == |dir|
    ensures name in Names(dir, r, Skipped, |dir|) <==>
              exists m :: m in dir && m.name == name && name in r && r[name] == m.checksum
    ensures name in Names(dir, r, Drift, |dir|) <==>
              exists i :: 0 < i < |dir| && dir[i].name == name && name in r && r[name] != dir[i].checksum
  {
    hide Names, RecordedNames;
    if dir == [] {
      NoNames(Plan(dir, r));
      PlannedNames(dir, r, 0);
      NoNames(PlanUpTo(dir, r, 0));
    } else {
      PlannedNames(dir, r, |dir|);
    }
    ClassesAdd(dir, r, Skipped, |dir|);
    ClassesAdd(dir, r, Drift, |dir|);
    if m :| m in dir && m.name == name && name in r && r[name] == m.checksum {
      var i :| 0 <= i < |dir| && dir[i] == m;
      assert ClassOf(dir, r, i) == Skipped;
    }
  }

  lemma AsPrefix(dir: seq<Migration>, r: Recorded, run: seq<Effect>, rest: seq<Effect>, p: nat, j: nat)
    requires p < |run| && j < |dir| && SafeAt(dir, r, run, p, j)
    ensures SafeAt(dir, r, run + rest, p, j)
  {
    hide RecordedBy;
    assert (run + rest)[..p] == run[..p];
    if Concerns(run[p], dir[j].name) && run[p].Record? {
      var k := |Prelude(dir, j)|;
      assert (run + rest)[p - k..p] == run[p - k..p];
    }
  }

  lemma AwaitedStays(dir: seq<Migration>, r: Recorded, budget: nat)
    requires Distinct(dir)
    ensures var after := RecordedBy(r, CutOff(Plan(dir, r), budget));
            forall i :: 0 <= i < |dir| && Awaited(dir, r, i) ==> Awaited(dir, after, i)
  {
    hide RecordedBy, Plan;
    var run := CutOff(Plan(dir, r), budget);
    forall i | 0 <= i < |dir| && Awaited(dir, r, i)
      ensures Awaited(dir, RecordedBy(r, run), i)
    {
      if i > 0 {
        forall p | 0 <= p < |run| && Concerns(run[p], dir[i].name) && run[p].Record?
          ensures run[p] == RecordOf(dir[i])
        {
          PlanIsSafe(dir, r, p, i);
          assert Plan(dir, r)[p] == run[p];
        }
        NoNewDrift(dir[i], r, run);
      }
    }
  }

  lemma {:induction false} StaysRecorded(r: Recorded, log: seq<Effect>, name: string)
    requires name in r
    ensures name in RecordedBy(r, log)
    decreases |log|
  {
    if log != [] {
      StaysRecorded(r, log[..|log| - 1], name);
    }
  }

  /** A file other than the first that was recorded before, drifted or not, is never touched again. */
  lemma RecordedFilesAreLeftAlone(dir: seq<Migration>, r: Recorded, budgets: seq<nat>, p: nat, j: nat)
    requires Distinct(dir) && 0 < j < |dir| && dir[j].name in r && p < |History(dir, r, budgets)|
    ensures !Concerns(History(dir, r, budgets)[p], dir[j].name)
  {
    HistoryIsSafe(dir, r, budgets, p, j);
    StaysRecorded(r, History(dir, r, budgets)[..p], dir[j].name);
  }

  /**
   However many runs were cut off before it, once a run finishes every file that has not drifted is
   recorded as it stands, and the next run executes the first file only and applies nothing.
   */
  lemma CleanRunSettles(dir: seq<Migration>, r: Recorded, budgets: seq<nat>)
    requires Distinct(dir) && dir != []
    ensures var now := RecordedBy(r, History(dir, r, budgets));
            var after := RecordedBy(now, Plan(dir, now));
            && (forall i :: 0 <= i < |dir| && Awaited(dir, r, i) ==> UpToDate(dir[i], after))
            && Plan(dir, after) == Execs(dir[0]) + [CreateBookkeeping]
            && Names(dir, after, Applied, |dir|) == []
  {
    hide RecordedBy, History, PlanUpTo, Names;
    var now := RecordedBy(r, History(dir, r, budgets));
    var after := RecordedBy(now, Plan(dir, now));
    AwaitedThroughout(dir, r, budgets);
    AfterFiles(dir, now, |dir|);
    OnlyTheFirst(dir, after, |dir|);
  }

  lemma {:induction false} AwaitedThroughout(dir: seq<Migration>, r: Recorded, budgets: seq<nat>)
    requires Distinct(dir)
    ensures var now := RecordedBy(r, History(dir, r, budgets));
            forall i :: 0 <= i < |dir| && Awaited(dir, r, i) ==> Awaited(dir, now, i)
    decreases |budgets|
  {
    if budgets != [] {
      hide RecordedBy, Plan, CutOff, Awaited;
      var run := CutOff(Plan(dir, r), budgets[0]);
      var after := RecordedBy(r, run);
      AwaitedStays(dir, r, budgets[0]);
      AwaitedThroughout(dir, after, budgets[1..]);
      RecordedAppend(r, run, History(dir, after, budgets[1..]));
    }
  }

  lemma {:induction false} OnlyTheFirst(dir: seq<Migration>, r: Recorded, n: nat)
    requires 0 < n <= |dir| && UpToDate(dir[0], r) && forall i :: 0 <= i < |dir| ==> dir[i].name in r
    ensures PlanUpTo(dir, r, n) == Execs(dir[0]) + [CreateBookkeeping]
    ensures Names(dir, r, Applied, n) == []
    decreases n
  {
    if n == 1 {
      assert Names(dir, r, Applied, 0) == [];
      FirstPart(dir, r);
    } else {
      OnlyTheFirst(dir, r, n - 1);
    }
  }

  // ---- The dry run

  /** The pending files of a dry run: with no bookkeeping table nothing is recorded, so all of them. */
  function Pending(dir: seq<Migration>, r: Recorded, n: nat): seq<string>
    requires n <= |dir|
  {
    if n == 0 then []
    else Pending(dir, r, n - 1) + if UpToDate(dir[n - 1], r) then [] else [dir[n - 1].name]
  }

  lemma {:induction false} DryRunCounts(dir: seq<Migration>, r: Recorded, n: nat)
    requires n <= |dir|
    ensures |Pending(dir, r, n)| == |Names(dir, r, Applied, n)| + |Names(dir, r, Drift, n)|
    ensures Names(dir, r, Drift, n) == [] ==> Pending(dir, r, n) == Names(dir, r, Applied, n)
  {
    if n > 0 {
      DryRunCounts(dir, r, n - 1);
    }
  }

  /** A dry run predicts exactly what a real run applies if and only if nothing has drifted. */
  lemma DryRunPredicts(dir: seq<Migration>, r: Recorded)
    ensures Pending(dir, r, |dir|) == Names(dir, r, Applied, |dir|)
            <==> forall i :: 0 < i < |dir| ==> !Drifted(dir[i], r)
  {
    DryRunCounts(dir, r, |dir|);
    NoDriftNames(dir, r, |dir|);
  }

  lemma {:induction false} NoDriftNames(dir: seq<Migration>, r: Recorded, n: nat)
    requires n <= |dir|
    ensures Names(dir, r, Drift, n) == [] <==> forall i :: 0 < i < n ==> !Drifted(dir[i], r)
  {
    if n > 0 {
      NoDriftNames(dir, r, n - 1);
      assert ClassOf(dir, r, n - 1) == Drift <==> n - 1 > 0 && Drifted(dir[n - 1], r);
    }
  }
}

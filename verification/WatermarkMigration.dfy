/**
 The migration that changes the watermark table's version column: copy the maximum into a new table,
 drop the old one, rename. A run may be cut off after any statement and be started again.
 */
module WatermarkMigration {
  import opened Exporter
  import opened Timeline
  import opened Wrappers

  /** The rows of the table the exporter uses and of its replacement, where they exist. */
  datatype Tables = Tables(current: Option<seq<Instant>>, v2: Option<seq<Instant>>)

  datatype Statement = CreateV2 | CopyMaximum | DropCurrent | RenameV2

  const STATEMENTS := [CreateV2, CopyMaximum, DropCurrent, RenameV2]

  /** The grouped maximum: no row for an empty table. */
  function Maximum(log: seq<Instant>): seq<Instant> {
    match Highest(log)
    case None => []
    case Some(w) => [w]
  }

  /** One statement; a table that is missing, or in the way, is an error. */
  function Execute(t: Tables, s: Statement): Option<Tables> {
    match s
    case CreateV2 => Some(if t.v2.None? then t.(v2 := Some([])) else t)
    case CopyMaximum =>
      if t.current.None? || t.v2.None? then None
      else Some(t.(v2 := Some(t.v2.value + Maximum(t.current.value))))
    case DropCurrent => Some(t.(current := None))
    case RenameV2 => if t.v2.None? || t.current.Some? then None else Some(Tables(t.v2, None))
  }

  /** A run from statement i on: until it is cut off before statement `cut`, fails, or ends. */
  function RunFrom(t: Tables, i: nat, cut: nat): Tables
    decreases |STATEMENTS| - i
  {
    if i >= cut || i >= |STATEMENTS| then t
    else
      match Execute(t, STATEMENTS[i])
      case None => t
      case Some(next) => RunFrom(next, i + 1, cut)
  }

  /** Some watermarks are written, where there is a table for them; then the migration runs. */
  datatype Attempt = Attempt(writes: seq<Instant>, cut: nat)

  function Write(t: Tables, writes: seq<Instant>): Tables {
    if t.current.None? then t else t.(current := Some(t.current.value + writes))
  }

  function After(t: Tables, attempts: seq<Attempt>): Tables
    decreases |attempts|
  {
    if attempts == [] then t
    else After(RunFrom(Write(t, attempts[0].writes), 0, attempts[0].cut), attempts[1..])
  }

  function Written(log: seq<Instant>, attempts: seq<Attempt>): seq<Instant>
    decreases |attempts|
  {
    if attempts == [] then log else Written(log + attempts[0].writes, attempts[1..])
  }

  /** The table is there, and its replacement, if any, is not ahead of it. */
  ghost predicate Sound(t: Tables) {
    && t.current.Some?
    && (t.v2.Some? ==> Later(Highest(t.current.value), Highest(t.v2.value)) == Highest(t.current.value))
  }

  lemma MaximumIsHighest(log: seq<Instant>)
    ensures Highest(Maximum(log)) == Highest(log)
  {
    if Highest(log).Some? {
      assert Maximum(log)[1..] == [];
    }
  }

  lemma RunUnfolds(t: Tables, i: nat, cut: nat)
    requires i < cut && i < |STATEMENTS|
    ensures RunFrom(t, i, cut)
            == match Execute(t, STATEMENTS[i]) case None => t case Some(next) => RunFrom(next, i + 1, cut)
  {
  }

  /** The copy brings the replacement up to the table, and no further. */
  lemma CopyCatchesUp(t: Tables)
    requires Sound(t) && t.v2.Some?
    ensures Execute(t, CopyMaximum).Some?
    ensures var u := Execute(t, CopyMaximum).value;
            u.current == t.current && u.v2.Some? && Highest(u.v2.value) == Highest(t.current.value)
  {
    hide Highest;
    MaximumIsHighest(t.current.value);
    HighestOfConcat(t.v2.value, Maximum(t.current.value));
  }

  /** A rerun that does not get as far as the rename keeps what an interrupted run has copied. */
  lemma CopiedRowsStay(t: Tables, cut: nat)
    requires t.v2.Some? && cut <= 3
    ensures var after := RunFrom(t, 0, cut); after.v2.Some? && t.v2.value <= after.v2.value
  {
    hide Highest;
    if cut > 0 {
      RunUnfolds(t, 0, cut);
      if cut > 1 {
        RunUnfolds(t, 1, cut);
        if t.current.Some? && cut > 2 {
          RunUnfolds(Execute(t, CopyMaximum).value, 2, cut);
        }
      }
    }
  }

  /** Unless it is cut off between drop and rename, a run on sound tables keeps the highest watermark. */
  lemma RunKeeps(t: Tables, cut: nat)
    requires Sound(t) && cut != 3
    ensures var u := RunFrom(t, 0, cut); Sound(u) && Highest(u.current.value) == Highest(t.current.value)
  {
    hide Highest, RunFrom;
    if cut == 0 {
      CutAtOnce(t, 0);
    } else {
      RunUnfolds(t, 0, cut);
      var t1 := Execute(t, CreateV2).value;
      NewTableIsBehind(t);
      if cut == 1 {
        CutAtOnce(t1, 1);
      } else {
        RunUnfolds(t1, 1, cut);
        CopyCatchesUp(t1);
        var t2 := Execute(t1, CopyMaximum).value;
        if cut == 2 {
          CutAtOnce(t2, 2);
        } else {
          RunUnfolds(t2, 2, cut);
          var t3 := Execute(t2, DropCurrent).value;
          RunUnfolds(t3, 3, cut);
          RunEnds(Execute(t3, RenameV2).value, cut);
        }
      }
    }
  }

  lemma CutAtOnce(t: Tables, cut: nat)
    ensures RunFrom(t, cut, cut) == t
  {
  }

  lemma RunEnds(t: Tables, cut: nat)
    ensures RunFrom(t, 4, cut) == t
  {
  }

  lemma NewTableIsBehind(t: Tables)
    requires Sound(t)
    ensures var u := Execute(t, CreateV2).value; Sound(u) && u.v2.Some? && u.current == t.current
  {
  }

  /** Cut off between drop and rename, it leaves no table behind, */
  lemma CutLosesTheTable(t: Tables)
    requires Sound(t)
    ensures RunFrom(t, 0, 3).current.None?
  {
    hide Highest, RunFrom;
    RunUnfolds(t, 0, 3);
    var t1 := Execute(t, CreateV2).value;
    NewTableIsBehind(t);
    RunUnfolds(t1, 1, 3);
    CopyCatchesUp(t1);
    var t2 := Execute(t1, CopyMaximum).value;
    RunUnfolds(t2, 2, 3);
    CutAtOnce(Execute(t2, DropCurrent).value, 3);
  }

  /** and no rerun gets past the copy. */
  lemma {:induction false} LostForGood(t: Tables, attempts: seq<Attempt>)
    requires t.current.None?
    ensures After(t, attempts).current.None?
    decreases |attempts|
  {
    if attempts != [] {
      var cut := attempts[0].cut;
      RunStops(t, cut);
      LostForGood(RunFrom(t, 0, cut), attempts[1..]);
    }
  }

  lemma RunStops(t: Tables, cut: nat)
    requires t.current.None?
    ensures RunFrom(t, 0, cut).current.None?
  {
    if cut > 0 {
      RunUnfolds(t, 0, cut);
      var t1 := Execute(t, CreateV2).value;
      if cut > 1 {
        RunUnfolds(t1, 1, cut);
      }
    }
  }

  /**
   Reruns are safe but for one cut. Whatever is written between them, after any number of runs cut
   off anywhere the table is there and reads the highest watermark ever written if and only if no
   run was cut off between the drop and the rename.
   */
  lemma {:induction false} HighestSurvivesExactly(t: Tables, attempts: seq<Attempt>)
    requires Sound(t)
    ensures var u := After(t, attempts);
            u.current.Some? && Highest(u.current.value) == Highest(Written(t.current.value, attempts))
            <==> forall i :: 0 <= i < |attempts| ==> attempts[i].cut != 3
    ensures (forall i :: 0 <= i < |attempts| ==> attempts[i].cut != 3) ==> Sound(After(t, attempts))
    decreases |attempts|
  {
    hide Highest, RunFrom;
    if attempts != [] {
      var a := attempts[0];
      var w := Write(t, a.writes);
      WritesKeep(t, a.writes);
      if a.cut == 3 {
        CutLosesTheTable(w);
        LostForGood(RunFrom(w, 0, 3), attempts[1..]);
      } else {
        RunKeeps(w, a.cut);
        var u := RunFrom(w, 0, a.cut);
        HighestSurvivesExactly(u, attempts[1..]);
        SameWritten(u.current.value, w.current.value, attempts[1..]);
        assert forall i :: 1 <= i < |attempts| ==> attempts[i] == attempts[1..][i - 1];
      }
    }
  }

  lemma WritesKeep(t: Tables, writes: seq<Instant>)
    requires Sound(t)
    ensures Sound(Write(t, writes)) && Write(t, writes).current.value == t.current.value + writes
  {
    hide Highest;
    HighestOfConcat(t.current.value, writes);
  }

  lemma {:induction false} SameWritten(a: seq<Instant>, b: seq<Instant>, attempts: seq<Attempt>)
    requires Highest(a) == Highest(b)
    ensures Highest(Written(a, attempts)) == Highest(Written(b, attempts))
    decreases |attempts|
  {
    hide Highest;
    if attempts != [] {
      HighestOfConcat(a, attempts[0].writes);
      HighestOfConcat(b, attempts[0].writes);
      SameWritten(a + attempts[0].writes, b + attempts[0].writes, attempts[1..]);
    }
  }
}

/** MySQL++ batched inserts: rows go into one statement until an insert policy refuses, inside
    a transaction that is committed only when everything was executed. */
module Batches {
  import opened Arithmetic

  /** A row as the query prints it (`values`) and as a policy measures it (`probe`): the query
      prints reals with 16 digits, the policy's own stream with the default precision. */
  datatype Row = Row(table: string, fields: string, values: string, probe: string)

  function Head(verb: string, row: Row): string {
    verb + " INTO `" + row.table + "` (" + row.fields + ") VALUES (" + row.values + ")"
  }

  function Tail(row: Row): string {
    ",(" + row.values + ")"
  }

  /** The text of one statement; nothing for no rows. */
  function Statement(verb: string, rows: seq<Row>): string {
    if rows == [] then ""
    else if |rows| == 1 then Head(verb, rows[0])
    else Statement(verb, rows[..|rows| - 1]) + Tail(rows[|rows| - 1])
  }

  lemma StatementGrows(verb: string, rows: seq<Row>, row: Row)
    ensures Statement(verb, rows + [row]) ==
            if rows == [] then Head(verb, row) else Statement(verb, rows) + Tail(row)
    ensures rows != [] ==> |Statement(verb, rows)| > 0
  {
    assert (rows + [row])[..|rows|] == rows;
  }

  // ---------- policies ----------

  /** A policy's answer for a statement of the given length and a row, and its next state. */
  type CanAdd<!S> = (S, int, Row) -> (bool, S)

  function RowCountPolicy(maxRows: nat): CanAdd<nat> {
    (rows: nat, size: int, row: Row) => if rows + 1 > maxRows then (false, 0) else (true, rows + 1)
  }

  function SizeThresholdPolicy(maxSize: int): CanAdd<()> {
    (state: (), size: int, row: Row) => (size < maxSize, state)
  }

  function MaxPacketPolicy(maxSize: int): CanAdd<()> {
    (state: (), size: int, row: Row) => (size < maxSize && maxSize - size >= |row.probe| + 3, state)
  }

  class RowCountInsertPolicy {
    var curRows: nat
    const maxRows: nat

    constructor (rows: nat)
      ensures curRows == 0 && maxRows == rows
    {
      curRows, maxRows := 0, rows;
    }

    method CanAddRow(size: int, row: Row) returns (ok: bool)
      modifies this
      ensures (ok, curRows) == RowCountPolicy(maxRows)(old(curRows), size, row)
    {
      curRows := curRows + 1;
      if curRows > maxRows {
        curRows := 0;
        return false;
      }
      return true;
    }
  }

  // ---------- the batching loop ----------

  datatype Verdict = Running | ExecFailed | TooStrict

  /** The loop's state: executed batches, the rows in the buffer, and how it is going. */
  datatype Load<!S> = Load(policy: S, done: seq<seq<Row>>, pending: seq<Row>, verdict: Verdict)

  /** Execute the buffer, if there is anything in it. `accepts(k)` is the outcome of statement k. */
  function Flush<S>(accepts: nat -> bool, load: Load<S>): Load<S> {
    if load.pending == [] then load
    else if accepts(|load.done|) then load.(done := load.done + [load.pending], pending := [])
    else load.(verdict := ExecFailed)
  }

  /** One row of the loop. */
  function Feed<S>(verb: string, canAdd: CanAdd<S>, accepts: nat -> bool, load: Load<S>, row: Row): Load<S> {
    if load.verdict != Running then load
    else
      var (fits, policy) := canAdd(load.policy, |Statement(verb, load.pending)|, row);
      if fits then load.(policy := policy, pending := load.pending + [row])
      else
        var flushed := Flush(accepts, load.(policy := policy));
        if flushed.verdict != Running then flushed
        else
          var (fitsAlone, policy') := canAdd(policy, 0, row);
          if fitsAlone then flushed.(policy := policy', pending := [row])
          else flushed.(policy := policy', verdict := TooStrict)
  }

  function FeedAll<S>(verb: string, canAdd: CanAdd<S>, accepts: nat -> bool, start: S, rows: seq<Row>): Load<S> {
    if rows == [] then Load(start, [], [], Running)
    else Feed(verb, canAdd, accepts, FeedAll(verb, canAdd, accepts, start, rows[..|rows| - 1]), rows[|rows| - 1])
  }

  /** The loop and the last execution after it. */
  function LoadAll<S>(verb: string, canAdd: CanAdd<S>, accepts: nat -> bool, start: S, rows: seq<Row>): Load<S> {
    var load := FeedAll(verb, canAdd, accepts, start, rows);
    if load.verdict == Running then Flush(accepts, load) else load
  }

  function Texts(verb: string, batches: seq<seq<Row>>): seq<string> {
    seq(|batches|, i requires 0 <= i < |batches| => Statement(verb, batches[i]))
  }

  datatype Outcome = Untouched | Committed | RolledBack | BadInsertPolicy

  class Query {
    var buffer: string
    var executed: seq<string>
    const throwExceptions: bool

    constructor (throwExceptions: bool)
      ensures buffer == "" && executed == [] && this.throwExceptions == throwExceptions
    {
      buffer, executed := "", [];
      this.throwExceptions := throwExceptions;
    }

    /** Send the buffer; an accepted statement resets it. */
    method Exec(accepted: bool) returns (ok: bool)
      modifies this
      ensures ok == accepted
      ensures executed == if accepted then old(executed) + [old(buffer)] else old(executed)
      ensures buffer == if accepted then "" else old(buffer)
    {
      if accepted {
        executed := executed + [buffer];
        buffer := "";
      }
      return accepted;
    }

    /** `insertfrom` for the verb INSERT, `replacefrom` for REPLACE. `executed` collects the
        statements that the server accepted. */
    method InsertFrom<S>(verb: string, rows: seq<Row>, canAdd: CanAdd<S>, start: S, accepts: nat -> bool)
      returns (outcome: Outcome, policy: S)
      modifies this
      ensures var load := LoadAll(verb, canAdd, accepts, start, rows);
        && policy == load.policy
        && executed == old(executed) + Texts(verb, load.done)
        && outcome ==
           (if rows == [] then Untouched
            else if load.verdict == Running then Committed
            else if load.verdict == TooStrict && throwExceptions then BadInsertPolicy
            else RolledBack)
    {
      hide Feed, FeedAll, Statement, Head, Tail, Texts;
      policy := start;
      buffer := "";
      EmptyLoad(verb, canAdd, accepts, start);
      if |rows| == 0 {
        assert rows == [];
        return Untouched, policy;
      }
      ghost var load := FeedAll(verb, canAdd, accepts, start, []);
      var success, empty, sent := true, true, 0;
      var i := 0;
      while i < |rows|
        invariant 0 <= i <= |rows|
        invariant load == FeedAll(verb, canAdd, accepts, start, rows[..i])
        invariant load.verdict == Running && success && policy == load.policy
        invariant empty <==> load.pending == []
        invariant buffer == Statement(verb, load.pending)
        invariant executed == old(executed) + Texts(verb, load.done) && sent == |load.done|
      {
        var row := rows[i];
        FeedNext(verb, canAdd, accepts, start, rows, i);
        FeedCases(verb, canAdd, accepts, load, row);
        StatementGrows(verb, load.pending, row);
        StatementGrows(verb, [], row);
        assert [] + [row] == [row];
        ghost var next := Feed(verb, canAdd, accepts, load, row);
        var (fits, policy') := canAdd(policy, |buffer|, row);
        policy := policy';
        if fits {
          if empty {
            buffer := buffer + Head(verb, row);
          } else {
            buffer := buffer + Tail(row);
          }
          empty := false;
        } else {
          if !empty {
            TextsGrow(verb, load.done, load.pending);
            var ok := Exec(accepts(sent));
            if !ok {
              success := false;
              load := next;
              FailedStays(verb, canAdd, accepts, start, rows, i + 1);
              break;
            }
            empty := true;
            sent := sent + 1;
          }
          var (fitsAlone, policy'') := canAdd(policy, |buffer|, row);
          policy := policy'';
          if fitsAlone {
            buffer := buffer + Head(verb, row);
            empty := false;
          } else {
            load := next;
            FailedStays(verb, canAdd, accepts, start, rows, i + 1);
            if throwExceptions {
              return BadInsertPolicy, policy;
            }
            success := false;
            break;
          }
        }
        load := next;
        i := i + 1;
      }
      assert success ==> rows[..i] == rows;
      if success && !empty {
        TextsGrow(verb, load.done, load.pending);
        var ok := Exec(accepts(sent));
        if !ok {
          success := false;
        }
      }
      outcome := if success then Committed else RolledBack;
    }

    /** A load that is limited by a policy object, which keeps its count for the next load. */
    method InsertCounted(verb: string, rows: seq<Row>, policy: RowCountInsertPolicy, accepts: nat -> bool)
      returns (outcome: Outcome)
      modifies this, policy
      ensures var load := LoadAll(verb, RowCountPolicy(policy.maxRows), accepts, old(policy.curRows), rows);
        && policy.curRows == load.policy
        && executed == old(executed) + Texts(verb, load.done)
        && (outcome == Committed <==> rows != [] && load.verdict == Running)
    {
      var count;
      outcome, count := InsertFrom(verb, rows, RowCountPolicy(policy.maxRows), policy.curRows, accepts);
      policy.curRows := count;
    }
  }

  lemma EmptyLoad<S>(verb: string, canAdd: CanAdd<S>, accepts: nat -> bool, start: S)
    ensures FeedAll(verb, canAdd, accepts, start, []) == Load(start, [], [], Running)
    ensures Statement(verb, []) == "" && Texts(verb, []) == []
  {
  }

  lemma TextsGrow(verb: string, batches: seq<seq<Row>>, batch: seq<Row>)
    ensures Texts(verb, batches + [batch]) == Texts(verb, batches) + [Statement(verb, batch)]
  {
  }

  lemma FeedNext<S>(verb: string, canAdd: CanAdd<S>, accepts: nat -> bool, start: S, rows: seq<Row>, i: nat)
    requires i < |rows|
    ensures FeedAll(verb, canAdd, accepts, start, rows[..i + 1]) ==
            Feed(verb, canAdd, accepts, FeedAll(verb, canAdd, accepts, start, rows[..i]), rows[i])
  {
    assert rows[..i + 1][..i] == rows[..i];
  }

  /** What one row does to a running loop. */
  lemma FeedCases<S>(verb: string, canAdd: CanAdd<S>, accepts: nat -> bool, load: Load<S>, row: Row)
    requires load.verdict == Running
    ensures var next := Feed(verb, canAdd, accepts, load, row);
      var (fits, policy) := canAdd(load.policy, |Statement(verb, load.pending)|, row);
      if fits then next == Load(policy, load.done, load.pending + [row], Running)
      else if load.pending != [] && !accepts(|load.done|) then next == Load(policy, load.done, load.pending, ExecFailed)
      else
        var done := if load.pending == [] then load.done else load.done + [load.pending];
        var (fitsAlone, policy') := canAdd(policy, 0, row);
        next == if fitsAlone then Load(policy', done, [row], Running) else Load(policy', done, [], TooStrict)
  {
  }

  lemma {:induction false} FailedStays<S>(verb: string, canAdd: CanAdd<S>, accepts: nat -> bool, start: S,
                                          rows: seq<Row>, i: nat)
    requires i <= |rows|
    requires FeedAll(verb, canAdd, accepts, start, rows[..i]).verdict != Running
    ensures FeedAll(verb, canAdd, accepts, start, rows) == FeedAll(verb, canAdd, accepts, start, rows[..i])
    decreases |rows| - i
  {
    if i < |rows| {
      FeedNext(verb, canAdd, accepts, start, rows, i);
      FailedStays(verb, canAdd, accepts, start, rows, i + 1);
    } else {
      assert rows[..i] == rows;
    }
  }

  // ---------- no row is lost, doubled or moved ----------

  function Flatten(batches: seq<seq<Row>>): seq<Row> {
    if batches == [] then [] else Flatten(batches[..|batches| - 1]) + batches[|batches| - 1]
  }

  lemma FlattenGrows(batches: seq<seq<Row>>, batch: seq<Row>)
    ensures Flatten(batches + [batch]) == Flatten(batches) + batch
  {
    assert (batches + [batch])[..|batches|] == batches;
  }

  /** The batches hold a prefix of the rows in order, and every executed statement was accepted;
      while the loop runs the buffer holds the rest. */
  ghost predicate Accounts<S(!new)>(accepts: nat -> bool, rows: seq<Row>, load: Load<S>) {
    && (load.verdict == Running ==> Flatten(load.done) + load.pending == rows)
    && Flatten(load.done) <= rows
    && (forall k: nat | k < |load.done| :: accepts(k) && load.done[k] != [])
    && (load.verdict == ExecFailed ==> !accepts(|load.done|))
  }

  lemma FeedAccounts<S(!new)>(verb: string, canAdd: CanAdd<S>, accepts: nat -> bool, load: Load<S>,
                              init: seq<Row>, row: Row)
    requires Accounts(accepts, init, load)
    ensures Accounts(accepts, init + [row], Feed(verb, canAdd, accepts, load, row))
  {
    hide Flatten, Statement;
    if load.verdict == Running {
      FlattenGrows(load.done, load.pending);
      FeedCases(verb, canAdd, accepts, load, row);
      hide Feed;
    }
  }

  lemma {:induction false} LoopAccounts<S(!new)>(verb: string, canAdd: CanAdd<S>, accepts: nat -> bool, start: S,
                                                 rows: seq<Row>)
    ensures Accounts(accepts, rows, FeedAll(verb, canAdd, accepts, start, rows))
  {
    hide Feed;
    if rows != [] {
      var init, row := rows[..|rows| - 1], rows[|rows| - 1];
      assert rows == init + [row];
      LoopAccounts(verb, canAdd, accepts, start, init);
      FeedAccounts(verb, canAdd, accepts, FeedAll(verb, canAdd, accepts, start, init), init, row);
    }
  }

  /** Commit means the executed statements hold exactly the input rows in order; on every other
      end they hold a prefix, and a roll-back without a policy error means that the next
      statement failed. */
  lemma CommitIsComplete<S(!new)>(verb: string, canAdd: CanAdd<S>, accepts: nat -> bool, start: S, rows: seq<Row>)
    ensures var load := LoadAll(verb, canAdd, accepts, start, rows);
      && Accounts(accepts, rows, load)
      && (load.verdict == Running ==> load.pending == [] && Flatten(load.done) == rows)
  {
    hide FeedAll, Feed, Flatten;
    LoopAccounts(verb, canAdd, accepts, start, rows);
    var load := FeedAll(verb, canAdd, accepts, start, rows);
    FlattenGrows(load.done, load.pending);
  }

  /** A policy that takes any row for an empty statement right after refusing it. */
  ghost predicate Relents<S(!new)>(canAdd: CanAdd<S>) {
    forall policy: S, size: int, row: Row ::
      !canAdd(policy, size, row).0 ==> canAdd(canAdd(policy, size, row).1, 0, row).0
  }

  /** The outcomes when the server refuses nothing: what the loop sends then is fixed by the rows
      and the policy. */
  function Accepting(): nat -> bool { (k: nat) => true }

  /** The server accepts every statement of the accepting run. */
  ghost predicate AcceptsAll<S>(accepts: nat -> bool, ideal: Load<S>) {
    forall k: nat | k < |ideal.done| :: accepts(k)
  }

  /** A run goes as the accepting one does until a statement of that is refused. */
  ghost predicate Follows<S>(accepts: nat -> bool, load: Load<S>, ideal: Load<S>) {
    if AcceptsAll(accepts, ideal) then load == ideal else load.verdict == ExecFailed
  }

  lemma FeedFollows<S>(verb: string, canAdd: CanAdd<S>, accepts: nat -> bool, load: Load<S>, ideal: Load<S>, row: Row)
    requires Follows(accepts, load, ideal)
    ensures Follows(accepts, Feed(verb, canAdd, accepts, load, row), Feed(verb, canAdd, Accepting(), ideal, row))
  {
    hide Statement;
    var next := Feed(verb, canAdd, Accepting(), ideal, row);
    assert |ideal.done| <= |next.done| && next.done[..|ideal.done|] == ideal.done;
    if !AcceptsAll(accepts, ideal) {
      var k: nat :| k < |ideal.done| && !accepts(k);
      assert k < |next.done|;
    }
  }

  lemma {:induction false} LoopFollows<S>(verb: string, canAdd: CanAdd<S>, accepts: nat -> bool, start: S,
                                          rows: seq<Row>)
    ensures Follows(accepts, FeedAll(verb, canAdd, accepts, start, rows),
                    FeedAll(verb, canAdd, Accepting(), start, rows))
  {
    hide Feed;
    if rows != [] {
      var init, row := rows[..|rows| - 1], rows[|rows| - 1];
      LoopFollows(verb, canAdd, accepts, start, init);
      FeedFollows(verb, canAdd, accepts, FeedAll(verb, canAdd, accepts, start, init),
                  FeedAll(verb, canAdd, Accepting(), start, init), row);
    }
  }

  /** A load commits exactly when the policy lets every row in and the server accepts every
      statement that the rows and the policy make. */
  lemma CommitsIff<S>(verb: string, canAdd: CanAdd<S>, accepts: nat -> bool, start: S, rows: seq<Row>)
    ensures var ideal := LoadAll(verb, canAdd, Accepting(), start, rows);
      LoadAll(verb, canAdd, accepts, start, rows).verdict == Running
      <==> ideal.verdict == Running && AcceptsAll(accepts, ideal)
  {
    hide FeedAll, AcceptsAll;
    LoopFollows(verb, canAdd, accepts, start, rows);
    var ideal := FeedAll(verb, canAdd, Accepting(), start, rows);
    LastAccepted(accepts, ideal);
  }

  lemma LastAccepted<S>(accepts: nat -> bool, ideal: Load<S>)
    ensures var last := Flush(Accepting(), ideal);
      AcceptsAll(accepts, last) <==>
      AcceptsAll(accepts, ideal) && (ideal.pending == [] || accepts(|ideal.done|))
  {
    var last := Flush(Accepting(), ideal);
    assert |ideal.done| <= |last.done| <= |ideal.done| + 1;
  }

  /** With a policy that relents only the server can make it fail. */
  lemma RelentingCommits<S(!new)>(verb: string, canAdd: CanAdd<S>, accepts: nat -> bool, start: S, rows: seq<Row>)
    requires Relents(canAdd)
    ensures LoadAll(verb, canAdd, accepts, start, rows).verdict == Running
       <==> AcceptsAll(accepts, LoadAll(verb, canAdd, Accepting(), start, rows))
  {
    hide FeedAll, AcceptsAll;
    RelentingLoop(verb, canAdd, start, rows);
    CommitsIff(verb, canAdd, accepts, start, rows);
  }

  lemma {:induction false} RelentingLoop<S(!new)>(verb: string, canAdd: CanAdd<S>, start: S, rows: seq<Row>)
    requires Relents(canAdd)
    ensures FeedAll(verb, canAdd, Accepting(), start, rows).verdict == Running
  {
    hide Statement;
    if rows != [] {
      var init, row := rows[..|rows| - 1], rows[|rows| - 1];
      RelentingLoop(verb, canAdd, start, init);
      FeedCases(verb, canAdd, Accepting(), FeedAll(verb, canAdd, Accepting(), start, init), row);
    }
  }

  // ---------- what the policies bound ----------

  /** Which policies relent: a row count of at least one, a positive threshold, and no packet
      limit, since some row is always too long. */
  lemma PoliciesRelent(maxRows: nat, maxSize: int)
    ensures Relents(RowCountPolicy(maxRows)) <==> maxRows >= 1
    ensures Relents(SizeThresholdPolicy(maxSize)) <==> maxSize > 0
    ensures !Relents(MaxPacketPolicy(maxSize))
  {
    var empty := Row("", "", "", "");
    if maxRows == 0 {
      assert !RowCountPolicy(maxRows)(0, 0, empty).0;
    }
    if maxSize <= 0 {
      assert !SizeThresholdPolicy(maxSize)((), 0, empty).0;
    }
    var long := Row("", "", "", seq(if maxSize > 0 then maxSize else 0, _ => ' '));
    assert !MaxPacketPolicy(maxSize)((), 0, long).0;
  }

  /** The rows a first statement may hold when a policy has already counted `used` rows. */
  function FirstBatch(maxRows: nat, used: nat): int {
    if used < maxRows then maxRows - used else maxRows
  }

  /** The row-count policy never gets stuck; a policy that was used before only shortens the
      first statement. */
  lemma {:induction false} RowCountInvariant(verb: string, maxRows: nat, used: nat, accepts: nat -> bool,
                                             rows: seq<Row>)
    requires maxRows >= 1 && used <= maxRows
    ensures var load := FeedAll(verb, RowCountPolicy(maxRows), accepts, used, rows);
      var room := if load.done == [] then FirstBatch(maxRows, used) else maxRows;
      && load.verdict != TooStrict
      && (load.verdict == Running && rows != [] ==>
            |load.pending| <= room && load.policy == |load.pending| + maxRows - room)
      && (forall k | 0 <= k < |load.done| :: |load.done[k]| == if k == 0 then FirstBatch(maxRows, used) else maxRows)
  {
    hide Statement;
    if rows != [] {
      var init, row := rows[..|rows| - 1], rows[|rows| - 1];
      RowCountInvariant(verb, maxRows, used, accepts, init);
      var load := FeedAll(verb, RowCountPolicy(maxRows), accepts, used, init);
      if load.verdict == Running {
        FeedCases(verb, RowCountPolicy(maxRows), accepts, load, row);
      }
    }
  }

  /** Every statement of a load but the first and the last holds exactly m rows, and the first
      holds what the policy had left. */
  lemma RowCountStatements(verb: string, maxRows: Unit, used: nat, accepts: nat -> bool, rows: seq<Row>)
    requires used <= maxRows
    ensures var load := LoadAll(verb, RowCountPolicy(maxRows), accepts, used, rows);
      && load.verdict != TooStrict
      && (forall k | 0 < k < |load.done| - 1 :: |load.done[k]| == maxRows)
      && (|load.done| > 1 ==> |load.done[0]| == FirstBatch(maxRows, used))
      && (forall k | 0 <= k < |load.done| :: |load.done[k]| <= maxRows)
  {
    hide FeedAll, Feed;
    RowCountInvariant(verb, maxRows, used, accepts, rows);
    EmptyLoad(verb, RowCountPolicy(maxRows), accepts, used);
  }

  lemma {:induction false} FlattenLength(batches: seq<seq<Row>>, size: Unit)
    requires forall k | 0 <= k < |batches| :: |batches[k]| == size
    ensures |Flatten(batches)| == Multiple(size, |batches|)
  {
    if batches != [] {
      FlattenLength(batches[..|batches| - 1], size);
      MultipleAdds(size, |batches| - 1, 1);
    }
  }

  /** With a new policy a committed load of n rows takes ceil(n / m) statements of exactly m rows, but for the last. */
  lemma RowCountBatches(verb: string, maxRows: Unit, accepts: nat -> bool, rows: seq<Row>)
    ensures var load := LoadAll(verb, RowCountPolicy(maxRows), accepts, 0, rows);
      && load.verdict != TooStrict
      && (forall k | 0 <= k < |load.done| - 1 :: |load.done[k]| == maxRows)
      && (load.verdict == Running ==> |load.done| == CeilDiv(|rows|, maxRows))
  {
    hide FeedAll, Feed, Flatten, Statement;
    var policy := RowCountPolicy(maxRows);
    RowCountInvariant(verb, maxRows, 0, accepts, rows);
    EmptyLoad(verb, policy, accepts, 0);
    LoopAccounts(verb, policy, accepts, 0, rows);
    var load := FeedAll(verb, policy, accepts, 0, rows);
    if load.verdict == Running {
      FlattenLength(load.done, maxRows);
      var k := |load.done| + if load.pending == [] then 0 else 1;
      MultipleAdds(maxRows, |load.done|, 1);
      CeilDivUnique(|rows|, maxRows, k);
    }
  }

  /** The row is printed no longer than its probe, or the probe alone is too long to be accepted. */
  predicate Measured(maxSize: int, row: Row) {
    |row.values| <= |row.probe| || maxSize < |row.probe| + 3
  }

  /** The packet policy's yes means that the row really fits exactly when the row is measured. */
  lemma MaxPacketAnswer(maxSize: int, row: Row)
    ensures (forall size: nat :: MaxPacketPolicy(maxSize)((), size, row).0 ==> size + |Tail(row)| <= maxSize)
       <==> Measured(maxSize, row)
  {
    if !Measured(maxSize, row) {
      var size: nat := maxSize - |row.probe| - 3;
      assert MaxPacketPolicy(maxSize)((), size, row).0;
    }
  }

  predicate Fits(verb: string, maxSize: int, batch: seq<Row>) {
    |batch| >= 2 ==> |Statement(verb, batch)| <= maxSize
  }

  /** Then every statement of two or more rows is at most `maxSize` long. */
  lemma MaxPacketStatements(verb: string, maxSize: int, accepts: nat -> bool, rows: seq<Row>)
    requires forall row | row in rows :: Measured(maxSize, row)
    ensures var load := LoadAll(verb, MaxPacketPolicy(maxSize), accepts, (), rows);
      forall k | 0 <= k < |load.done| :: Fits(verb, maxSize, load.done[k])
  {
    hide FeedAll, Fits;
    MaxPacketBounds(verb, maxSize, accepts, rows);
  }

  lemma {:induction false} MaxPacketBounds(verb: string, maxSize: int, accepts: nat -> bool, rows: seq<Row>)
    requires forall row | row in rows :: Measured(maxSize, row)
    ensures var load := FeedAll(verb, MaxPacketPolicy(maxSize), accepts, (), rows);
      && (forall k | 0 <= k < |load.done| :: Fits(verb, maxSize, load.done[k]))
      && Fits(verb, maxSize, load.pending)
  {
    hide Statement;
    if rows != [] {
      var init, row := rows[..|rows| - 1], rows[|rows| - 1];
      assert row in rows && forall r | r in init :: r in rows;
      MaxPacketBounds(verb, maxSize, accepts, init);
      var load := FeedAll(verb, MaxPacketPolicy(maxSize), accepts, (), init);
      if load.verdict == Running {
        FeedCases(verb, MaxPacketPolicy(maxSize), accepts, load, row);
        StatementGrows(verb, load.pending, row);
      }
    }
  }

  /** A row that is printed longer than its probe can push a statement over the limit. */
  lemma MaxPacketOverrun()
    ensures var row := Row("t", "f", "0.3333333333333333", "0.333333");
      var load := LoadAll("INSERT", MaxPacketPolicy(60), (k: nat) => true, (), [row, row]);
      load.verdict == Running && load.done == [[row, row]] && |Statement("INSERT", [row, row])| == 68
  {
    var row := Row("t", "f", "0.3333333333333333", "0.333333");
    hide Statement, FeedAll, Head, Tail;
    var policy, accepts := MaxPacketPolicy(60), (k: nat) => true;
    OverrunRow();
    StatementGrows("INSERT", [], row);
    StatementGrows("INSERT", [row], row);
    assert [] + [row] == [row] && [row] + [row] == [row, row];
    EmptyLoad("INSERT", policy, accepts, ());
    FeedNext("INSERT", policy, accepts, (), [row, row], 0);
    FeedNext("INSERT", policy, accepts, (), [row, row], 1);
    assert [row, row][..0] == [] && [row, row][..1] == [row] && [row, row][..2] == [row, row];
  }

  lemma OverrunRow()
    ensures var row := Row("t", "f", "0.3333333333333333", "0.333333");
      |Head("INSERT", row)| == 47 && |Tail(row)| == 21
  {
  }

  predicate BelowThreshold(verb: string, maxSize: int, batch: seq<Row>) {
    |batch| >= 2 ==> |Statement(verb, batch[..|batch| - 1])| < maxSize
  }

  /** Without its last row every statement of two or more rows is below the threshold. */
  lemma SizeThresholdStatements(verb: string, maxSize: int, accepts: nat -> bool, rows: seq<Row>)
    ensures var load := LoadAll(verb, SizeThresholdPolicy(maxSize), accepts, (), rows);
      forall k | 0 <= k < |load.done| :: BelowThreshold(verb, maxSize, load.done[k])
  {
    hide FeedAll, BelowThreshold;
    SizeThresholdBounds(verb, maxSize, accepts, rows);
  }

  lemma {:induction false} SizeThresholdBounds(verb: string, maxSize: int, accepts: nat -> bool, rows: seq<Row>)
    ensures var load := FeedAll(verb, SizeThresholdPolicy(maxSize), accepts, (), rows);
      && (forall k | 0 <= k < |load.done| :: BelowThreshold(verb, maxSize, load.done[k]))
      && BelowThreshold(verb, maxSize, load.pending)
  {
    hide Statement;
    if rows != [] {
      var init, row := rows[..|rows| - 1], rows[|rows| - 1];
      SizeThresholdBounds(verb, maxSize, accepts, init);
      var load := FeedAll(verb, SizeThresholdPolicy(maxSize), accepts, (), init);
      if load.verdict == Running {
        FeedCases(verb, SizeThresholdPolicy(maxSize), accepts, load, row);
        assert (load.pending + [row])[..|load.pending|] == load.pending;
      }
    }
  }

  // ---------- no statement is closed early ----------

  /** A statement is closed by a row that no longer fits. */
  predicate ClosedBy(verb: string, maxSize: int, batch: seq<Row>, next: seq<Row>) {
    next != [] ==> |Statement(verb, batch)| + |next[0].probe| + 3 > maxSize
  }

  ghost predicate ClosedInTurn(verb: string, maxSize: int, batches: seq<seq<Row>>) {
    forall i, j | 0 <= i < j < |batches| && j == i + 1 :: ClosedBy(verb, maxSize, batches[i], batches[j])
  }

  lemma OneMoreClosed(verb: string, maxSize: int, batches: seq<seq<Row>>, batch: seq<Row>)
    requires ClosedInTurn(verb, maxSize, batches)
    requires batches != [] ==> ClosedBy(verb, maxSize, batches[|batches| - 1], batch)
    ensures ClosedInTurn(verb, maxSize, batches + [batch])
  {
    hide ClosedBy;
  }

  /** With the packet policy every statement but the last is as long as its rows allow: the row that
      opens the next one no longer fitted. */
  lemma MaxPacketFills(verb: string, maxSize: int, accepts: nat -> bool, rows: seq<Row>)
    ensures ClosedInTurn(verb, maxSize, LoadAll(verb, MaxPacketPolicy(maxSize), accepts, (), rows).done)
  {
    hide FeedAll, ClosedInTurn, ClosedBy;
    MaxPacketFilling(verb, maxSize, accepts, rows);
    var load := FeedAll(verb, MaxPacketPolicy(maxSize), accepts, (), rows);
    OneMoreClosed(verb, maxSize, load.done, load.pending);
  }

  lemma {:induction false} MaxPacketFilling(verb: string, maxSize: int, accepts: nat -> bool, rows: seq<Row>)
    ensures var load := FeedAll(verb, MaxPacketPolicy(maxSize), accepts, (), rows);
      && ClosedInTurn(verb, maxSize, load.done)
      && (load.done != [] ==> ClosedBy(verb, maxSize, load.done[|load.done| - 1], load.pending))
  {
    hide Statement, ClosedInTurn;
    var policy := MaxPacketPolicy(maxSize);
    if rows == [] {
      EmptyLoad(verb, policy, accepts, ());
      NothingClosed(verb, maxSize);
    } else {
      var init, row := rows[..|rows| - 1], rows[|rows| - 1];
      MaxPacketFilling(verb, maxSize, accepts, init);
      var load := FeedAll(verb, policy, accepts, (), init);
      OneMoreClosed(verb, maxSize, load.done, load.pending);
      if load.verdict == Running {
        FeedCases(verb, policy, accepts, load, row);
      }
    }
  }

  lemma NothingClosed(verb: string, maxSize: int)
    ensures ClosedInTurn(verb, maxSize, [])
  {
  }

  predicate Reached(verb: string, maxSize: int, batch: seq<Row>) {
    |Statement(verb, batch)| >= maxSize
  }

  /** With the size policy every statement but the last has reached the threshold. */
  lemma SizeThresholdFills(verb: string, maxSize: int, accepts: nat -> bool, rows: seq<Row>)
    ensures var load := LoadAll(verb, SizeThresholdPolicy(maxSize), accepts, (), rows);
      load.done == [] || forall batch | batch in load.done[..|load.done| - 1] :: Reached(verb, maxSize, batch)
  {
    hide FeedAll, Reached;
    SizeThresholdFilling(verb, maxSize, accepts, rows);
  }

  lemma {:induction false} SizeThresholdFilling(verb: string, maxSize: int, accepts: nat -> bool, rows: seq<Row>)
    ensures var load := FeedAll(verb, SizeThresholdPolicy(maxSize), accepts, (), rows);
      forall batch | batch in load.done :: Reached(verb, maxSize, batch)
  {
    hide Statement;
    if rows != [] {
      var init, row := rows[..|rows| - 1], rows[|rows| - 1];
      SizeThresholdFilling(verb, maxSize, accepts, init);
      var load := FeedAll(verb, SizeThresholdPolicy(maxSize), accepts, (), init);
      if load.verdict == Running {
        FeedCases(verb, SizeThresholdPolicy(maxSize), accepts, load, row);
      }
    }
  }
}

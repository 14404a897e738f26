/** Clearing reminder outcomes before a cutover
  * (apps/api/src/jobs/reconcile-deadline-reminder.ts).
  */
module Reminder {
  import opened Wrappers

  type Id = nat
  type Time = nat

  datatype Status = Reserved | Sending | Sent | Failed | Skipped | Uncertain

  datatype Outcome = AcceptedConfirmed | NotAcceptedConfirmed | UnknownAcknowledged

  /** What a person found out about a delivery, and who and how. It is recorded whole. */
  datatype Evidence = Evidence(outcome: Outcome, at: Time, operator: string, reference: string)

  datatype Remark = NoRemark | ReleasedByCutover | InterruptedByCutover | Other(text: string)

  datatype Row = Row(
    status: Status,
    legacy: bool,
    attemptedAt: Option<Time>,
    requestStartedAt: Option<Time>,
    sentAt: Option<Time>,
    hasMessageId: bool,
    error: Remark,
    evidence: Option<Evidence>)

  type Rows = map<Id, Row>

  datatype Command =
    | List
    | AssertClear
    | PrepareCutover
    | Reconcile(id: Id, outcome: Outcome, operator: string, reference: string)

  datatype Answer =
    | Listed(ids: set<Id>)
    | Clear
    | Prepared(released: nat, quarantined: nat)
    | Reconciled
    | Unresolved(count: nat)
    | NotChanged

  // ---- What the table holds -------------------------------------------------------------------

  /** What the table's own checks demand of a row. */
  ghost predicate Lawful(row: Row) {
    && (row.evidence.Some? ==> row.status.Uncertain?)
    && (row.legacy ==> row.status.Uncertain? && !row.hasMessageId)
    && (row.hasMessageId <==> !row.legacy && row.status.Sent?)
    && (row.requestStartedAt.Some? <==> !row.legacy && !row.status.Reserved? && !row.status.Skipped?)
    && (row.attemptedAt.Some? <==> !row.legacy && !row.status.Reserved? && !row.status.Skipped?)
    && (row.sentAt.Some? <==> !row.legacy && row.status.Sent?)
  }

  ghost predicate LawfulRows(rows: Rows) {
    forall id :: id in rows ==> Lawful(rows[id])
  }

  predicate Unreconciled(row: Row) {
    row.status.Uncertain? && row.evidence.None?
  }

  /** `cutoverBlockers` */
  predicate Blocks(row: Row) {
    row.status.Reserved? || row.status.Sending? || Unreconciled(row)
  }

  function Blockers(rows: Rows): set<Id> {
    set id | id in rows && Blocks(rows[id])
  }

  // ---- The statements -------------------------------------------------------------------------

  function ReleasedRow(row: Row): Row {
    row.(status := Skipped, error := ReleasedByCutover, attemptedAt := None, requestStartedAt := None, sentAt := None)
  }

  function QuarantinedRow(row: Row): Row {
    row.(status := Uncertain, error := InterruptedByCutover, sentAt := None)
  }

  function Released(rows: Rows): Rows {
    map id | id in rows :: if rows[id].status.Reserved? then ReleasedRow(rows[id]) else rows[id]
  }

  function Quarantined(rows: Rows): Rows {
    map id | id in rows ::
      if rows[id].status.Sending? && rows[id].evidence.None? then QuarantinedRow(rows[id]) else rows[id]
  }

  function CutOver(rows: Rows): Rows {
    Quarantined(Released(rows))
  }

  /** What a command answers and what it leaves. A refusal of the cutover comes after
    * its transaction, which stands.
    */
  function Executed(rows: Rows, command: Command, now: Time): (Rows, Answer) {
    match command
    case List => (rows, Listed(Blockers(rows)))
    case AssertClear => (rows, if Blockers(rows) == {} then Clear else Unresolved(|Blockers(rows)|))
    case PrepareCutover =>
      var after := CutOver(rows);
      (after,
       if Blockers(after) != {} then Unresolved(|Blockers(after)|)
       else Prepared(|set id | id in rows && rows[id].status.Reserved?|,
                     |set id | id in rows && rows[id].status.Sending? && rows[id].evidence.None?|))
    case Reconcile(id, outcome, operator, reference) =>
      if id in rows && Unreconciled(rows[id])
      then (rows[id := rows[id].(evidence := Some(Evidence(outcome, now, operator, reference)))], Reconciled)
      else (rows, NotChanged)
  }

  class Reminders {
    var rows: Rows

    constructor (rows: Rows)
      ensures this.rows == rows
    {
      this.rows := rows;
    }

    method ReleaseReserved() returns (count: nat)
      modifies this
      ensures rows == Released(old(rows))
      ensures count == |set id | id in old(rows) && old(rows)[id].status.Reserved?|
    {
      var ids := set id | id in rows && rows[id].status.Reserved?;
      var todo := ids;
      while todo != {}
        invariant todo <= ids && rows.Keys == old(rows).Keys
        invariant forall id :: id in rows ==>
          rows[id] == if id in ids - todo then ReleasedRow(old(rows)[id]) else old(rows)[id]
        decreases todo
      {
        var id :| id in todo;
        rows := rows[id := ReleasedRow(rows[id])];
        todo := todo - {id};
      }
      assert forall id :: id in rows ==> rows[id] == Released(old(rows))[id];
      assert rows == Released(old(rows));
      return |ids|;
    }

    method QuarantineSending() returns (count: nat)
      modifies this
      ensures rows == Quarantined(old(rows))
      ensures count == |set id | id in old(rows) && old(rows)[id].status.Sending? && old(rows)[id].evidence.None?|
    {
      var ids := set id | id in rows && rows[id].status.Sending? && rows[id].evidence.None?;
      var todo := ids;
      while todo != {}
        invariant todo <= ids && rows.Keys == old(rows).Keys
        invariant forall id :: id in rows ==>
          rows[id] == if id in ids - todo then QuarantinedRow(old(rows)[id]) else old(rows)[id]
        decreases todo
      {
        var id :| id in todo;
        rows := rows[id := QuarantinedRow(rows[id])];
        todo := todo - {id};
      }
      assert forall id :: id in rows ==> rows[id] == Quarantined(old(rows))[id];
      assert rows == Quarantined(old(rows));
      return |ids|;
    }

    method Execute(command: Command, now: Time) returns (answer: Answer)
      modifies this
      ensures (rows, answer) == Executed(old(rows), command, now)
    {
      match command {
        case List =>
          return Listed(Blockers(rows));
        case AssertClear =>
          var unresolved := |Blockers(rows)|;
          return if unresolved > 0 then Unresolved(unresolved) else Clear;
        case PrepareCutover =>
          var released := ReleaseReserved();
          SameSending(old(rows));
          var quarantined := QuarantineSending();
          var unresolved := |Blockers(rows)|;
          return if unresolved > 0 then Unresolved(unresolved) else Prepared(released, quarantined);
        case Reconcile(id, outcome, operator, reference) =>
          if id !in rows || !Unreconciled(rows[id]) {
            return NotChanged;
          }
          rows := rows[id := rows[id].(evidence := Some(Evidence(outcome, now, operator, reference)))];
          return Reconciled;
      }
    }
  }

  lemma SameSending(rows: Rows)
    ensures (set id | id in Released(rows) && Released(rows)[id].status.Sending? && Released(rows)[id].evidence.None?) ==
            (set id | id in rows && rows[id].status.Sending? && rows[id].evidence.None?)
  {
  }

  // ---- The commands, row by row ------------------------------------------------------------------

  /** A row before and after the cutover: a reservation is released, a delivery on its way
    * becomes uncertain unless someone has already found out about it, and any other row is
    * left as it is.
    */
  predicate CutRow(r: Row, r': Row) {
    && r'.legacy == r.legacy && r'.hasMessageId == r.hasMessageId && r'.evidence == r.evidence
    && (r.status == Reserved ==>
          r'.status == Skipped && r'.error == ReleasedByCutover
          && r'.attemptedAt == None && r'.requestStartedAt == None && r'.sentAt == None)
    && (r.status == Sending && r.evidence == None ==>
          r'.status == Uncertain && r'.error == InterruptedByCutover
          && r'.attemptedAt == r.attemptedAt && r'.requestStartedAt == r.requestStartedAt && r'.sentAt == None)
    && (r.status != Reserved && !(r.status == Sending && r.evidence == None) ==> r' == r)
  }

  /** Still in the way of a cutover. */
  predicate InTheWay(r: Row) {
    r.status == Reserved || r.status == Sending || (r.status == Uncertain && r.evidence == None)
  }

  lemma CutoverRows(rows: Rows, now: Time)
    ensures var after := Executed(rows, PrepareCutover, now).0;
            after.Keys == rows.Keys && forall id :: id in rows ==> CutRow(rows[id], after[id])
  {
    forall id | id in rows ensures CutRow(rows[id], CutOver(rows)[id]) {
    }
  }

  /** How many rows the cutover says it changed, or how many stopped it. */
  lemma CutoverCounts(rows: Rows, now: Time, reserved: set<Id>, sending: set<Id>, left: set<Id>)
    requires forall id :: id in reserved <==> id in rows && rows[id].status == Reserved
    requires forall id :: id in sending <==> id in rows && rows[id].status == Sending && rows[id].evidence == None
    requires forall id :: id in left <==>
               id in rows && (rows[id].status == Sending || (rows[id].status == Uncertain && rows[id].evidence == None))
    ensures Executed(rows, PrepareCutover, now).1 ==
            if left == {} then Prepared(|reserved|, |sending|) else Unresolved(|left|)
  {
    var after := CutOver(rows);
    forall id ensures id in left <==> id in Blockers(after) {
    }
    assert left == Blockers(after);
    assert reserved == set id | id in rows && rows[id].status.Reserved?;
    assert sending == set id | id in rows && rows[id].status.Sending? && rows[id].evidence.None?;
  }

  /** A list and a check change nothing, and say what is still in the way. */
  lemma ListingExact(rows: Rows, now: Time, left: set<Id>)
    requires forall id :: id in left <==> id in rows && InTheWay(rows[id])
    ensures Executed(rows, List, now) == (rows, Listed(left))
    ensures Executed(rows, AssertClear, now) == (rows, if left == {} then Clear else Unresolved(|left|))
  {
    assert left == Blockers(rows);
  }

  /** A reconciliation records what was found out, by whom, from what and when, in one row
    * that is uncertain and of which nothing was known. Otherwise nothing is changed.
    */
  lemma ReconcileExact(rows: Rows, id: Id, outcome: Outcome, operator: string, reference: string, now: Time)
    ensures var (after, answer) := Executed(rows, Reconcile(id, outcome, operator, reference), now);
            var found := id in rows && rows[id].status == Uncertain && rows[id].evidence == None;
            && after.Keys == rows.Keys && (forall other :: other in rows && other != id ==> after[other] == rows[other])
            && (found ==> answer == Reconciled && after[id] == rows[id].(evidence := after[id].evidence)
                          && after[id].evidence.Some?
                          && after[id].evidence.value.outcome == outcome && after[id].evidence.value.at == now
                          && after[id].evidence.value.operator == operator
                          && after[id].evidence.value.reference == reference)
            && (!found ==> answer == NotChanged && after == rows)
  {
  }

  // ---- Every run of commands --------------------------------------------------------------------

  function After(rows: Rows, commands: seq<(Command, Time)>): Rows
    decreases |commands|
  {
    if commands == [] then rows
    else After(Executed(rows, commands[0].0, commands[0].1).0, commands[1..])
  }

  /** Rows are neither made nor lost, the table's checks never fail, and evidence once
    * recorded is never touched.
    */
  lemma StepKeeps(rows: Rows, command: Command, now: Time)
    ensures var after := Executed(rows, command, now).0;
            && after.Keys == rows.Keys
            && (LawfulRows(rows) ==> LawfulRows(after))
            && (forall id :: id in rows && rows[id].evidence.Some? ==> after[id].evidence == rows[id].evidence)
            && (forall id :: id in rows && after[id] != rows[id] ==> Blocks(rows[id]))
  {
  }

  lemma {:induction false} RunKeeps(rows: Rows, commands: seq<(Command, Time)>)
    ensures var after := After(rows, commands);
            && after.Keys == rows.Keys
            && (LawfulRows(rows) ==> LawfulRows(after))
            && (forall id :: id in rows && rows[id].evidence.Some? ==> after[id].evidence == rows[id].evidence)
    decreases |commands|
  {
    if commands != [] {
      StepKeeps(rows, commands[0].0, commands[0].1);
      RunKeeps(Executed(rows, commands[0].0, commands[0].1).0, commands[1..]);
    }
  }

  /** The cutover leaves no reservation, even when it refuses. It succeeds exactly when
    * nothing was being sent and nothing is left to be reconciled; a second one changes
    * nothing more.
    */
  lemma CutoverExact(rows: Rows, now: Time)
    ensures var (after, answer) := Executed(rows, PrepareCutover, now);
            && (forall id :: id in after ==> !after[id].status.Reserved?)
            && (answer.Prepared? <==>
                forall id :: id in rows ==> !rows[id].status.Sending? && !Unreconciled(rows[id]))
            && Executed(after, PrepareCutover, now).0 == after
  {
    var after := CutOver(rows);
    if Blockers(after) == {} {
      forall id | id in rows ensures !rows[id].status.Sending? && !Unreconciled(rows[id]) {
        assert id !in Blockers(after);
        assert !Blocks(after[id]);
      }
    } else {
      var id :| id in Blockers(after);
      assert rows[id].status.Sending? || Unreconciled(rows[id]);
    }
    assert CutOver(after) == after;
  }

  // ---- Getting to clear ---------------------------------------------------------------------------

  function ToReconcile(rows: Rows): set<Id> {
    set id | id in rows && Unreconciled(rows[id])
  }

  lemma ToReconcileIff(rows: Rows, id: Id)
    ensures id in ToReconcile(rows) <==> id in rows && rows[id].status == Uncertain && rows[id].evidence == None
  {
  }

  /** One reconciliation for each of `ids`, in any order. */
  ghost predicate Covers(commands: seq<(Command, Time)>, ids: set<Id>) {
    && (forall i :: 0 <= i < |commands| ==> commands[i].0.Reconcile?)
    && (forall id :: id in ids ==> exists i :: 0 <= i < |commands| && commands[i].0.id == id)
  }

  /** What is still in the way after some reconciliations: what was, less those rows. */
  lemma {:induction false} LeftAfter(rows: Rows, commands: seq<(Command, Time)>)
    requires forall i :: 0 <= i < |commands| ==> commands[i].0.Reconcile?
    ensures After(rows, commands).Keys == rows.Keys
    ensures forall id :: id in rows ==>
              (Blocks(After(rows, commands)[id]) <==>
               Blocks(rows[id]) &&
               !(Unreconciled(rows[id]) && exists i :: 0 <= i < |commands| && commands[i].0.id == id))
    decreases |commands|
  {
    if commands != [] {
      var (c, rest) := (commands[0].0, commands[1..]);
      var next := Executed(rows, c, commands[0].1).0;
      LeftAfter(next, rest);
      assert forall i :: 0 < i < |commands| ==> commands[i] == rest[i - 1];
      forall id | id in rows
        ensures Blocks(After(rows, commands)[id]) <==>
                Blocks(rows[id]) &&
                !(Unreconciled(rows[id]) && exists i :: 0 <= i < |commands| && commands[i].0.id == id)
      {
        if exists i :: 0 <= i < |rest| && rest[i].0.id == id {
          var i :| 0 <= i < |rest| && rest[i].0.id == id;
          assert commands[i + 1].0.id == id;
        }
      }
    }
  }

  /** After the cutover, reconciling every row it leaves unreconciled reaches clear
    * exactly when no row that was being sent already carried evidence.
    */
  lemma ReachesClearIff(rows: Rows, commands: seq<(Command, Time)>, now: Time)
    requires Covers(commands, ToReconcile(CutOver(rows)))
    ensures Executed(After(CutOver(rows), commands), AssertClear, now).1 == Clear <==>
            forall id :: id in rows ==> !(rows[id].status.Sending? && rows[id].evidence.Some?)
  {
    var mid := CutOver(rows);
    var end := After(mid, commands);
    LeftAfter(mid, commands);
    if Blockers(end) == {} {
      forall id | id in rows ensures !(rows[id].status.Sending? && rows[id].evidence.Some?) {
        assert id !in Blockers(end);
        assert !Blocks(end[id]);
      }
    }
    if forall id :: id in rows ==> !(rows[id].status.Sending? && rows[id].evidence.Some?) {
      forall id | id in end ensures !Blocks(end[id]) {
        assert Blocks(mid[id]) ==> id in ToReconcile(mid);
      }
    }
  }

  /** The table's checks rule that out, so an operator can always get there. */
  lemma LawfulReachesClear(rows: Rows, commands: seq<(Command, Time)>, now: Time)
    requires LawfulRows(rows)
    requires Covers(commands, ToReconcile(CutOver(rows)))
    ensures Executed(After(CutOver(rows), commands), AssertClear, now).1 == Clear
  {
    ReachesClearIff(rows, commands, now);
  }
}

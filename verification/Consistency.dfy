/** What every reachable database satisfies: the rows are the replay of the event log, and the
    archives are the events' snapshots, one for one. */
module Consistency {
  import opened Wrappers
  import opened Domain
  import opened Cascade

  /** Every row is what its own events fold to, and no log is ever stuck. */
  ghost predicate RowsReplayLog(db: DB) {
    forall id :: match Replay(id, db.log)
                 case Stuck => false
                 case Live(row) => id in db.rows && db.rows[id] == row
                 case _ => id !in db.rows
  }

  /** The aggregate as event i left it or, for a deletion, as the event found it. */
  function LifeAt(log: seq<Event>, i: nat): Life
    requires i < |log|
  {
    Replay(log[i].body.id, if log[i].body.Deleted? then log[..i] else log[..i + 1])
  }

  ghost predicate ArchiveOfEvent(archive: Archive, log: seq<Event>, i: nat)
    requires i < |log|
  {
    && archive.span == log[i].tracer.span && archive.trace == log[i].tracer.trace
    && archive.id == log[i].body.id && archive.doer == log[i].body.doer
    && (archive.kind == match log[i].body
                        case Created(_, _, _) => CreatedKind
                        case Updated(_, _, _) => UpdatedKind
                        case Voided(_, _) => VoidedKind
                        case Deleted(_, _) => DeletedKind)
    && LifeAt(log, i) == Live(archive.row)
  }

  ghost predicate ArchivesMatchLog(db: DB) {
    && |db.archives| == |db.log|
    && (forall i :: 0 <= i < |db.log| ==> ArchiveOfEvent(db.archives[i], db.log, i))
  }

  /** No identifier is used twice for the same purpose. */
  ghost predicate IdentifiersDistinct(db: DB) {
    && (forall i, j :: 0 <= i < j < |db.log| ==> db.log[i].tracer.span != db.log[j].tracer.span)
    && (forall i, j :: 0 <= i < j < |db.archives| ==> db.archives[i].archiveId != db.archives[j].archiveId)
  }

  ghost predicate Dated(db: DB, request: nat, next: nat) {
    && (forall i :: 0 <= i < |db.log| ==> Older(db.log[i].tracer.span, request, next) && Older(db.log[i].body.id, request, next))
    && (forall i :: 0 <= i < |db.archives| ==> Older(db.archives[i].archiveId, request, next))
  }

  ghost predicate Consistent(db: DB, request: nat, next: nat) {
    RowsReplayLog(db) && ArchivesMatchLog(db) && IdentifiersDistinct(db) && Dated(db, request, next)
  }

  lemma {:induction false} Unmentioned(id: Uuid, log: seq<Event>)
    requires forall i :: 0 <= i < |log| ==> log[i].body.id != id
    ensures Replay(id, log) == Absent
  {
    if log != [] { Unmentioned(id, log[..|log| - 1]); }
  }

  lemma EmptyConsistent()
    ensures Consistent(EMPTY_DB, 0, 0)
  {
  }

  /** Identifiers drawn later keep a database consistent. */
  lemma LaterConsistent(db: DB, request: nat, next: nat, request': nat, next': nat)
    requires Consistent(db, request, next)
    requires request < request' || (request == request' && next <= next')
    ensures Consistent(db, request', next')
  {
  }

  /** The row recorded with an event is the one the event leads to, or removes. */
  ghost predicate Justified(log: seq<Event>, body: Body, row: Row) {
    if body.Deleted? then Replay(body.id, log) == Live(row)
    else Apply(Replay(body.id, log), body) == Live(row)
  }

  lemma RecordKeepsRows(db: DB, e: Event, row: Row)
    requires RowsReplayLog(db) && Justified(db.log, e.body, row)
    ensures var rows := if e.body.Deleted? then map id | id in db.rows && id != e.body.id :: db.rows[id]
                        else db.rows[e.body.id := row];
            RowsReplayLog(db.(rows := rows, log := db.log + [e]))
  {
    var rows := if e.body.Deleted? then map id | id in db.rows && id != e.body.id :: db.rows[id] else db.rows[e.body.id := row];
    forall id ensures match Replay(id, db.log + [e]) case Stuck => false
                                                     case Live(r) => id in rows && rows[id] == r
                                                     case _ => id !in rows {
      ReplayAppend(id, db.log, e);
      assert id != e.body.id ==> (id in rows <==> id in db.rows);
    }
  }

  lemma RecordKeepsArchives(db: DB, e: Event, archive: Archive)
    requires ArchivesMatchLog(db) && Justified(db.log, e.body, archive.row)
    requires archive.span == e.tracer.span && archive.trace == e.tracer.trace
    requires archive.kind == e.body.Kind() && archive.id == e.body.id && archive.doer == e.body.doer
    ensures ArchivesMatchLog(db.(archives := db.archives + [archive], log := db.log + [e]))
  {
    var log, log' := db.log, db.log + [e];
    forall i | 0 <= i < |log'| ensures ArchiveOfEvent((db.archives + [archive])[i], log', i) {
      if i < |log| {
        assert log'[..i + 1] == log[..i + 1] && log'[..i] == log[..i];
        assert ArchiveOfEvent(db.archives[i], log, i);
      } else {
        assert log'[..i + 1] == log' && log'[..i] == log;
        ReplayAppend(e.body.id, log, e);
      }
    }
  }

  /** An event recorded with the row that it leads to keeps the database consistent. */
  lemma RecordKeepsConsistent(v: View, who: Who, body: Body, row: Row)
    requires Consistent(v.db, v.request, v.next)
    requires Older(body.id, v.request, v.next)
    requires Justified(v.db.log, body, row) && KeepCreator(v.db.rows, body.id, row) == row
    ensures var v' := Record(v, who, body, row).0;
            Consistent(v'.db, v'.request, v'.next)
  {
    var (v', e) := Record(v, who, body, row);
    AppendKeepsConsistent(v.db, v'.db, v.request, v.next, e, v'.db.archives[|v.db.archives|]);
  }

  lemma AppendKeepsConsistent(db: DB, db': DB, request: nat, next: nat, e: Event, archive: Archive)
    requires Consistent(db, request, next) && Older(e.body.id, request, next) && Justified(db.log, e.body, archive.row)
    requires archive == Archive(Uuid(request, next + 1), e.body.id, archive.row, e.body.doer, e.body.Kind(), e.tracer.span, e.tracer.trace)
    requires e.tracer.span == Uuid(request, next)
    requires db' == DB(if e.body.Deleted? then map id | id in db.rows && id != e.body.id :: db.rows[id] else db.rows[e.body.id := archive.row],
                       db.archives + [archive], db.log + [e])
    ensures Consistent(db', request, next + 2)
  {
    RecordKeepsRows(db, e, archive.row);
    RecordKeepsArchives(db, e, archive);
    RecordKeepsIdentifiers(db, db', request, next, e, archive);
  }

  lemma RecordKeepsIdentifiers(db: DB, db': DB, request: nat, next: nat, e: Event, archive: Archive)
    requires IdentifiersDistinct(db) && Dated(db, request, next)
    requires db'.archives == db.archives + [archive] && db'.log == db.log + [e]
    requires e.tracer.span == Uuid(request, next) && archive.archiveId == Uuid(request, next + 1)
    requires Older(e.body.id, request, next)
    ensures IdentifiersDistinct(db') && Dated(db', request, next + 2)
  {
  }

  lemma CreateKeepsConsistent(v: View, who: Who, vo: ValueObject, doer: User)
    requires Consistent(v.db, v.request, v.next)
    ensures var v' := Execute(v, who, Create(vo, doer)).value.0;
            Consistent(v'.db, v'.request, v'.next)
  {
    var v1, body := v.(next := v.next + 1), Created(v.Fresh(), vo, doer);
    var row := Row(vo, StatusCreated, [History(HistoryCreated, [], doer)], doer);
    LaterConsistent(v.db, v.request, v.next, v.request, v.next + 1);
    assert Justified(v1.db.log, body, row) && KeepCreator(v1.db.rows, body.id, row) == row by { Unmentioned(v.Fresh(), v.db.log); }
    RecordKeepsConsistent(v1, who, body, row);
    assert Execute(v, who, Create(vo, doer)).value == Record(v1, who, body, row);
  }

  lemma RowsAreOlder(db: DB, request: nat, next: nat, id: Uuid)
    requires Consistent(db, request, next) && id in db.rows
    ensures Replay(id, db.log) == Live(db.rows[id]) && Older(id, request, next)
  {
    if forall i :: 0 <= i < |db.log| ==> db.log[i].body.id != id { Unmentioned(id, db.log); }
  }

  lemma ExecuteKeepsConsistent(v: View, who: Who, a: Action)
    requires !a.Notify? && Execute(v, who, a).Success?
    requires Consistent(v.db, v.request, v.next)
    ensures var v' := Execute(v, who, a).value.0;
            Consistent(v'.db, v'.request, v'.next)
  {
    if a.Create? {
      CreateKeepsConsistent(v, who, a.vo, a.doer);
    } else {
      var row := v.db.rows[a.id];
      RowsAreOlder(v.db, v.request, v.next, a.id);
      match a
      case Delete(id, doer) => RecordKeepsConsistent(v, who, Deleted(id, doer), row);
      case Update(id, vo, doer) =>
        RecordKeepsConsistent(v, who, Updated(id, vo, doer), row.(vo := vo, histories := row.histories + [UpdateEntry(row.vo, vo, doer)]));
      case Void(id, doer) =>
        RecordKeepsConsistent(v, who, Voided(id, doer), row.(status := StatusVoided, histories := row.histories + [VoidEntry(row.status, doer)]));
    }
  }

  /** Whatever the cascade, whatever the order of handlers: a run that ends well leaves a
      consistent database. */
  lemma {:induction false} RunKeepsConsistent(bus: Bus, v: View, tasks: seq<Task>, v': View)
    requires WellFormed(bus)
    requires Consistent(v.db, v.request, v.next)
    requires Run(bus, v, tasks) == Success(v')
    ensures v'.request == v.request && Consistent(v'.db, v'.request, v'.next)
    decreases MaxRank(bus, tasks), |tasks|
  {
    if tasks != [] {
      StepKeepsConsistent(bus, v, tasks[0]);
      RunDescends(bus, v, tasks);
      var (v1, children) := Step(bus, v, tasks[0]).value;
      var v2 := Run(bus, v1, children).value;
      RunKeepsConsistent(bus, v1, children, v2);
      RunKeepsConsistent(bus, v2, tasks[1..], v');
    }
  }

  lemma StepKeepsConsistent(bus: Bus, v: View, t: Task)
    requires Consistent(v.db, v.request, v.next) && Step(bus, v, t).Success?
    ensures var v1 := Step(bus, v, t).value.0;
            v1.request == v.request && Consistent(v1.db, v1.request, v1.next)
  {
    if t.Do? && !t.action.Notify? { ExecuteKeepsConsistent(v, t.who, t.action); }
  }

  /** One step, and the run of its children. */
  lemma FirstKeepsConsistent(bus: Bus, v: View, tasks: seq<Task>)
    requires WellFormed(bus) && Consistent(v.db, v.request, v.next) && tasks != [] && Step(bus, v, tasks[0]).Success?
    ensures var (v1, children) := Step(bus, v, tasks[0]).value;
            && v1.request == v.request && Consistent(v1.db, v1.request, v1.next)
            && (Run(bus, v1, children).Success? ==>
                  var v2 := Run(bus, v1, children).value; v2.request == v.request && Consistent(v2.db, v2.request, v2.next))
  {
    StepKeepsConsistent(bus, v, tasks[0]);
    var (v1, children) := Step(bus, v, tasks[0]).value;
    if Run(bus, v1, children).Success? { RunKeepsConsistent(bus, v1, children, Run(bus, v1, children).value); }
  }

  /** Whatever a run passes through is consistent. */
  lemma {:induction false} PassesConsistent(bus: Bus, v: View, tasks: seq<Task>, db: DB, pushed: seq<Uuid>)
    requires WellFormed(bus) && Consistent(v.db, v.request, v.next) && Passes(bus, v, tasks, db, pushed)
    ensures Consistent(db, v.request + 1, 0)
    decreases MaxRank(bus, tasks), |tasks|
  {
    LaterConsistent(v.db, v.request, v.next, v.request + 1, 0);
    if !(db == v.db && pushed == v.pushed) {
      FirstKeepsConsistent(bus, v, tasks);
      RunDescends(bus, v, tasks);
      var (v1, children) := Step(bus, v, tasks[0]).value;
      if Passes(bus, v1, children, db, pushed) {
        PassesConsistent(bus, v1, children, db, pushed);
      } else {
        PassesConsistent(bus, Run(bus, v1, children).value, tasks[1..], db, pushed);
      }
    }
  }

  /** A controller call keeps the database consistent, for the next call to start from. */
  lemma ServeKeepsConsistent(bus: Bus, request: nat, db: DB, r: Request, stale: Slot, v': View)
    requires WellFormed(bus)
    requires Consistent(db, request, 0)
    requires Serve(bus, request, db, r, stale) == Success(v')
    ensures Consistent(v'.db, request + 1, 0)
  {
    var v := Begin(request, db, r.trace, stale);
    LaterConsistent(db, request, 0, request, v.next);
    RunKeepsConsistent(bus, v, Dos(Caller, r.actions), v');
    LaterConsistent(v'.db, v'.request, v'.next, request + 1, 0);
  }

  // ---------- at most one void per aggregate ----------

  /** A log that is not stuck voids an aggregate at most once: whatever precedes a void of `id`
      holds none, and nothing but a deletion follows it. */
  lemma {:induction false} VoidedOnce(id: Uuid, log: seq<Event>)
    requires Replay(id, log) != Stuck
    ensures forall i, j :: 0 <= i < j < |log| && log[i].body.id == id && log[j].body.id == id && log[i].body.Voided? ==> log[j].body.Deleted?
    ensures (exists i :: 0 <= i < |log| && log[i].body.id == id && log[i].body.Voided?) ==>
              Replay(id, log).Gone? || (Replay(id, log).Live? && Replay(id, log).row.status == StatusVoided)
  {
    if log != [] {
      var front := log[..|log| - 1];
      VoidedOnce(id, front);
      assert forall i :: 0 <= i < |log| ==> log[i] == if i < |front| then front[i] else log[|log| - 1];
    }
  }
}

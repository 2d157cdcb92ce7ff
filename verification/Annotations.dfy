/**
 The annotations table: idempotent inserts made of two statements, running beside
 other inserts and a pruner that frees old keys.
 */
module Annotations {
  import opened Collections

  /** What a caller supplies. */
  datatype Input = Input(targetType: string, targetId: string, kind: string, payload: string, ts: int)

  datatype Row = Row(id: int, tenant: string, input: Input, createdAt: int, key: Option<string>)

  /** Instants and the retention count the same unit of time. */
  datatype Db = Db(rows: seq<Row>, now: int)

  predicate Live(r: Row, tenant: string, key: string) {
    r.tenant == tenant && r.key == Some(key)
  }

  /** The row the partial unique index would conflict on, if any. */
  function Find(rows: seq<Row>, tenant: string, key: string): (i: Option<nat>)
    ensures i.Some? ==> i.value < |rows| && Live(rows[i.value], tenant, key)
    ensures i.None? ==> forall j :: 0 <= j < |rows| ==> !Live(rows[j], tenant, key)
  {
    if rows == [] then None
    else if Live(Last(rows), tenant, key) then Some(|rows| - 1)
    else Find(DropLast(rows), tenant, key)
  }

  /** NULLIF(key, ''). */
  function Stored(key: string): Option<string> {
    if key == "" then None else Some(key)
  }

  predicate Conflicts(db: Db, tenant: string, key: string) {
    key != "" && Find(db.rows, tenant, key).Some?
  }

  /** INSERT ... ON CONFLICT DO NOTHING. */
  function Inserted(db: Db, id: int, tenant: string, input: Input, key: string): Db {
    if Conflicts(db, tenant, key) then db
    else db.(rows := db.rows + [Row(id, tenant, input, db.now, Stored(key))])
  }

  function Pruned(r: Row, now: int, days: int): Row {
    if r.key.Some? && r.createdAt < now - days then r.(key := None) else r
  }

  function PrunedRows(rows: seq<Row>, now: int, days: int): seq<Row> {
    seq(|rows|, i requires 0 <= i < |rows| => Pruned(rows[i], now, days))
  }

  /** What a prune does to one row, field by field. */
  ghost predicate IsPruned(was: Row, row: Row, now: int, days: int) {
    && row.id == was.id && row.tenant == was.tenant && row.input == was.input && row.createdAt == was.createdAt
    && (row.key.None? <==> was.key.None? || was.createdAt < now - days)
    && (row.key.Some? ==> row.key == was.key)
  }

  /** A prune frees exactly the keys of rows older than the retention, and changes nothing else. */
  lemma PruneMeaning(rows: seq<Row>, now: int, days: int)
    ensures |PrunedRows(rows, now, days)| == |rows|
    ensures forall i :: 0 <= i < |rows| ==> IsPruned(rows[i], PrunedRows(rows, now, days)[i], now, days)
  {
  }

  // ---- every interleaving ---------------------------------------------------------

  /** A client between its two statements, and the row it conflicted on. */
  datatype Waiting = Waiting(tenant: string, key: string, row: nat)

  /** `asked` remembers the key each row was created with, which pruning erases from the table. */
  datatype System = System(db: Db, asked: seq<string>, waiting: map<nat, Waiting>)

  datatype Step =
    | Insert(client: nat, id: int, tenant: string, input: Input, key: string)
    | Select(client: nat)
    | Prune
    | Wait(now: int)

  ghost predicate Enabled(s: System, step: Step) {
    match step
    case Insert(c, id, _, _, _) => c !in s.waiting && forall r :: r in s.db.rows ==> r.id != id
    case Select(c) => c in s.waiting
    case Prune => true
    case Wait(now) => s.db.now <= now
  }

  function Apply(s: System, step: Step, days: int): System {
    match step
    case Insert(c, id, tenant, input, key) =>
      if Conflicts(s.db, tenant, key) then
        s.(waiting := s.waiting[c := Waiting(tenant, key, Find(s.db.rows, tenant, key).value)])
      else
        s.(db := Inserted(s.db, id, tenant, input, key), asked := s.asked + [key])
    case Select(c) => s.(waiting := s.waiting - {c})
    case Prune => s.(db := s.db.(rows := PrunedRows(s.db.rows, s.db.now, days)))
    case Wait(now) => s.(db := s.db.(now := now))
  }

  /** What a waiting client's second statement answers; None is sql.ErrNoRows. */
  function Answer(s: System, w: Waiting): Option<int> {
    var i := Find(s.db.rows, w.tenant, w.key);
    if i.None? then None else Some(s.db.rows[i.value].id)
  }

  /** Same tenant, same non-empty key, more than the retention period apart. */
  ghost predicate WindowKept(rows: seq<Row>, asked: seq<string>, days: int)
    requires |rows| == |asked|
  {
    forall i, j :: 0 <= i < j < |rows| && asked[i] == asked[j] != "" && rows[i].tenant == rows[j].tenant
      ==> rows[j].createdAt - rows[i].createdAt > days
  }

  ghost predicate LiveUnique(rows: seq<Row>) {
    forall i, j :: 0 <= i < j < |rows| && rows[i].key.Some? && rows[i].tenant == rows[j].tenant ==>
      rows[i].key != rows[j].key
  }

  ghost predicate Sound(db: Db, asked: seq<string>, days: int) {
    && |asked| == |db.rows|
    && (forall i :: 0 <= i < |asked| ==> db.rows[i].createdAt <= db.now)
    && (forall i :: 0 <= i < |asked| && db.rows[i].key.Some? ==> db.rows[i].key == Some(asked[i]) && asked[i] != "")
    && (forall i :: 0 <= i < |asked| && db.rows[i].key.None? && asked[i] != "" ==>
          db.rows[i].createdAt < db.now - days)
    && (forall i, j :: 0 <= i < j < |asked| ==> db.rows[i].id != db.rows[j].id)
    && LiveUnique(db.rows)
    && WindowKept(db.rows, asked, days)
  }

  ghost predicate Inv(s: System, days: int) {
    && Sound(s.db, s.asked, days)
    && forall c :: c in s.waiting ==>
      var w := s.waiting[c];
      w.row < |s.asked| && s.db.rows[w.row].tenant == w.tenant && s.asked[w.row] == w.key != ""
  }

  lemma InsertKeeps(db: Db, asked: seq<string>, days: int, id: int, tenant: string, input: Input, key: string)
    requires Sound(db, asked, days) && !Conflicts(db, tenant, key)
    requires forall r :: r in db.rows ==> r.id != id
    ensures Sound(Inserted(db, id, tenant, input, key), asked + [key], days)
  {
    var n := |asked|;
    forall i | 0 <= i < n && asked[i] == key != "" && db.rows[i].tenant == tenant
      ensures db.now - db.rows[i].createdAt > days
    {
      assert !Live(db.rows[i], tenant, key);
    }
    forall i | 0 <= i < n && db.rows[i].key.Some? && db.rows[i].tenant == tenant && key != ""
      ensures db.rows[i].key != Some(key)
    {
      assert !Live(db.rows[i], tenant, key);
    }
    forall i | 0 <= i < n ensures db.rows[i].id != id {
      assert db.rows[i] in db.rows;
    }
  }

  lemma PruneKeeps(db: Db, asked: seq<string>, days: int)
    requires Sound(db, asked, days)
    ensures Sound(db.(rows := PrunedRows(db.rows, db.now, days)), asked, days)
  {
  }

  lemma StepKeeps(s: System, step: Step, days: int)
    requires Inv(s, days) && Enabled(s, step)
    ensures Inv(Apply(s, step, days), days)
  {
    match step
    case Insert(c, id, tenant, input, key) =>
      if !Conflicts(s.db, tenant, key) { InsertKeeps(s.db, s.asked, days, id, tenant, input, key); }
    case Prune => PruneKeeps(s.db, s.asked, days);
    case _ =>
  }

  /** `b` follows from `a` through steps of any clients: nothing is lost, changed or reordered; only expired keys go. */
  ghost predicate Evolves(a: Db, b: Db, days: int) {
    && a.now <= b.now && |a.rows| <= |b.rows|
    && forall i :: 0 <= i < |a.rows| ==>
      || b.rows[i] == a.rows[i]
      || (b.rows[i] == a.rows[i].(key := None) && a.rows[i].createdAt < b.now - days)
  }

  lemma EvolvesTransitive(a: Db, b: Db, c: Db, days: int)
    requires Evolves(a, b, days) && Evolves(b, c, days)
    ensures Evolves(a, c, days)
  {
  }

  lemma StepEvolves(s: System, step: Step, days: int)
    requires Enabled(s, step)
    ensures Evolves(s.db, Apply(s, step, days).db, days)
  {
  }

  ghost predicate Reaches(a: System, steps: seq<Step>, b: System, days: int)
    decreases |steps|
  {
    if steps == [] then a == b
    else Enabled(a, steps[0]) && Reaches(Apply(a, steps[0], days), steps[1..], b, days)
  }

  /**
   Over every interleaving of inserts and prunes: two rows ever created for one tenant
   with one non-empty key lie more than the retention period apart, live keys are
   unique, and no row's id, owner, content or creation time ever changes.
   */
  lemma {:induction false} EveryRun(a: System, steps: seq<Step>, b: System, days: int)
    requires Inv(a, days) && Reaches(a, steps, b, days)
    ensures Inv(b, days) && Evolves(a.db, b.db, days)
    ensures WindowKept(b.db.rows, b.asked, days) && LiveUnique(b.db.rows)
    decreases |steps|
  {
    if steps == [] {
    } else {
      var m := Apply(a, steps[0], days);
      StepKeeps(a, steps[0], days);
      StepEvolves(a, steps[0], days);
      EveryRun(m, steps[1..], b, days);
      EvolvesTransitive(a.db, m.db, b.db, days);
    }
  }

  /**
   A retry cannot miss: while the row it conflicted on is within the retention period,
   whatever ran in between, the second statement answers exactly that row. It answers
   nothing only once that row has expired.
   */
  lemma RetryFindsOriginal(s: System, c: nat, days: int)
    requires Inv(s, days) && c in s.waiting
    ensures var w := s.waiting[c]; var original := s.db.rows[w.row];
      && (original.createdAt >= s.db.now - days ==> Answer(s, w) == Some(original.id))
      && (Answer(s, w).None? ==> original.createdAt < s.db.now - days)
      && (Answer(s, w).Some? ==> exists r :: r in s.db.rows && Live(r, w.tenant, w.key) && Answer(s, w) == Some(r.id))
  {
    var w := s.waiting[c];
    var i := Find(s.db.rows, w.tenant, w.key);
    if i.Some? {
      assert s.db.rows[i.value] in s.db.rows;
    }
    if s.db.rows[w.row].createdAt >= s.db.now - days {
      assert Live(s.db.rows[w.row], w.tenant, w.key);
    }
  }

  lemma StepSpares(a: System, step: Step, c: nat, days: int)
    requires Inv(a, days) && Enabled(a, step) && !step.Prune? && step != Select(c)
    requires c in a.waiting && Live(a.db.rows[a.waiting[c].row], a.waiting[c].tenant, a.waiting[c].key)
    ensures var m := Apply(a, step, days); var w := a.waiting[c];
      && c in m.waiting && m.waiting[c] == w && w.row < |m.db.rows| && m.db.rows[w.row] == a.db.rows[w.row]
  {
  }

  lemma LiveIsFound(s: System, w: Waiting, days: int)
    requires Sound(s.db, s.asked, days) && w.row < |s.db.rows| && Live(s.db.rows[w.row], w.tenant, w.key)
    ensures Answer(s, w) == Some(s.db.rows[w.row].id)
  {
    assert Find(s.db.rows, w.tenant, w.key).Some?;
  }

  /**
   Without a prune between its two statements a conflicting insert always answers the
   row it conflicted on.
   */
  lemma {:induction false} NoPruneNoMiss(a: System, steps: seq<Step>, b: System, c: nat, days: int)
    requires Inv(a, days) && Reaches(a, steps, b, days)
    requires c in a.waiting && Live(a.db.rows[a.waiting[c].row], a.waiting[c].tenant, a.waiting[c].key)
    requires Prune !in steps && Select(c) !in steps
    ensures c in b.waiting && b.waiting[c] == a.waiting[c]
    ensures Answer(b, b.waiting[c]) == Some(a.db.rows[a.waiting[c].row].id)
    decreases |steps|
  {
    if steps == [] {
      LiveIsFound(a, a.waiting[c], days);
    } else {
      var m := Apply(a, steps[0], days);
      assert steps[0] in steps && forall x :: x in steps[1..] ==> x in steps;
      StepKeeps(a, steps[0], days);
      StepSpares(a, steps[0], c, days);
      hide Apply, Enabled, Sound, Inv;
      NoPruneNoMiss(m, steps[1..], b, c, days);
    }
  }

  // ---- the repository object -----------------------------------------------------------

  datatype InsertResult = Created(id: int) | Existing(id: int) | NoRows | InvariantViolation

  class AnnotationsRepo {
    var db: Db
    /** The retention the pruner runs with. */
    const days: int
    ghost var asked: seq<string>

    ghost predicate Valid()
      reads this
    {
      Sound(db, asked, days)
    }

    constructor (now: int, days: int)
      ensures Valid() && db == Db([], now) && this.days == days
    {
      db, this.days, asked := Db([], now), days, [];
    }

    /**
     Everything other sessions may do before this one's next statement, as EveryRun
     bounds it.
     */
    method OtherSessions()
      requires Valid()
      modifies this
      ensures Valid() && Evolves(old(db), db, days) && old(asked) <= asked
    {
    }

    /** The first statement: the new id, or nothing when the unique index made it do nothing. */
    method InsertStatement(tenant: string, input: Input, key: string) returns (id: Option<int>)
      requires Valid()
      modifies this
      ensures Valid()
      ensures id.None? <==> old(Conflicts(db, tenant, key))
      ensures id.None? ==> db == old(db) && asked == old(asked)
      ensures id.Some? ==> forall r :: r in old(db).rows ==> r.id != id.value
      ensures id.Some? ==>
        db == old(db).(rows := old(db).rows + [Row(id.value, tenant, input, old(db).now, Stored(key))])
      ensures id.Some? ==> asked == old(asked) + [key]
    {
      if Conflicts(db, tenant, key) {
        return None;
      }
      var newId := FreshId(db.rows);
      InsertKeeps(db, asked, days, newId, tenant, input, key);
      db := Inserted(db, newId, tenant, input, key);
      asked := asked + [key];
      id := Some(newId);
    }

    /** gen_random_uuid() under the primary key: some id no row has. */
    static method FreshId(rows: seq<Row>) returns (id: int)
      ensures forall r :: r in rows ==> r.id != id
    {
      id := 0;
      for i := 0 to |rows|
        invariant forall j :: 0 <= j < i ==> rows[j].id < id
      {
        if id <= rows[i].id { id := rows[i].id + 1; }
      }
    }

    /**
     Insert: created means one fresh row; existing means a row of this tenant that held
     this key when it was read, and the very row conflicted on unless that has expired;
     no rows means the row conflicted on expired in between. The guard against a
     conflict without a key never fires.
     */
    method Insert(tenant: string, input: Input, key: string) returns (r: InsertResult)
      requires Valid()
      modifies this
      ensures Valid() && Evolves(old(db), db, days)
      ensures r.Created? <==> !old(Conflicts(db, tenant, key))
      ensures r.Created? ==> forall x :: x in old(db).rows ==> x.id != r.id
      ensures r.Created? ==> db == old(db).(rows := old(db).rows + [Row(r.id, tenant, input, old(db).now, Stored(key))])
      ensures r.Existing? ==> exists i :: 0 <= i < |db.rows| && db.rows[i].id == r.id && Live(db.rows[i], tenant, key)
      ensures !r.Created? ==>
        var original := old(db.rows)[Find(old(db.rows), tenant, key).value];
        original.createdAt < db.now - days || r == Existing(original.id)
      ensures r != InvariantViolation
    {
      var id := InsertStatement(tenant, input, key);
      if id.Some? {
        return Created(id.value);
      }
      if key == "" {
        return InvariantViolation;
      }
      ghost var j := Find(db.rows, tenant, key).value;
      ghost var before := db;
      OtherSessions();
      assert db.rows[j] == before.rows[j] ||
        (db.rows[j] == before.rows[j].(key := None) && before.rows[j].createdAt < db.now - days);
      var found := Find(db.rows, tenant, key);
      r := if found.None? then NoRows else Existing(db.rows[found.value].id);
    }

    /** Frees the keys of rows older than the retention; nothing else in the table changes. */
    method PruneIdempotencyKeys() returns (affected: nat)
      requires Valid()
      modifies this
      ensures Valid() && asked == old(asked)
      ensures db == old(db).(rows := PrunedRows(old(db).rows, old(db).now, days))
      ensures |db.rows| == |old(db).rows| && db.now == old(db).now
      ensures forall i :: 0 <= i < |db.rows| ==> IsPruned(old(db).rows[i], db.rows[i], db.now, days)
      ensures affected == |set i | 0 <= i < |old(db).rows| &&
        old(db).rows[i].key.Some? && old(db).rows[i].createdAt < db.now - days|
    {
      hide Sound, IsPruned, PrunedRows;
      PruneKeeps(db, asked, days);
      PruneMeaning(db.rows, db.now, days);
      var rows;
      rows, affected := FreeOldKeys(db.rows, db.now, days);
      db := db.(rows := rows);
    }

    /** The update of every row, and how many it touched. */
    static method FreeOldKeys(rows: seq<Row>, now: int, days: int) returns (freed: seq<Row>, affected: nat)
      ensures freed == PrunedRows(rows, now, days)
      ensures affected == |set i | 0 <= i < |rows| && rows[i].key.Some? && rows[i].createdAt < now - days|
    {
      freed, affected := rows, 0;
      ghost var touched: set<int> := {};
      for i := 0 to |rows|
        invariant |freed| == |rows|
        invariant forall j :: 0 <= j < i ==> freed[j] == Pruned(rows[j], now, days)
        invariant forall j :: i <= j < |rows| ==> freed[j] == rows[j]
        invariant touched == set j | 0 <= j < i && rows[j].key.Some? && rows[j].createdAt < now - days
        invariant affected == |touched|
      {
        if rows[i].key.Some? && rows[i].createdAt < now - days {
          freed := freed[i := rows[i].(key := None)];
          affected := affected + 1;
          touched := touched + {i};
        }
      }
    }
  }
}

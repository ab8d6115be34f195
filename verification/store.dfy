/** The database: one sequence per collection, in insertion order, and the
    counter that issues record ids. */
module Store {
  import opened Models
  import Decimal

  datatype Db = Db(
    users: seq<User>, lessons: seq<Lesson>, exercises: seq<Exercise>,
    quizzes: seq<Quiz>, progress: seq<Progress>, nextId: nat)

  /** The id the next created record receives. */
  function FreshId(db: Db): string {
    Decimal.NatToDecimal(db.nextId)
  }

  /** The counter after an id has been issued. */
  function Advance(db: Db): (r: Db)
    ensures r.nextId == db.nextId + 1
    ensures r == db.(nextId := db.nextId + 1)
  {
    db.(nextId := db.nextId + 1)
  }

  /** The ids of every stored record. */
  function Ids(db: Db): set<string> {
    (set u | u in db.users :: u.id) + (set l | l in db.lessons :: l.id)
    + (set e | e in db.exercises :: e.id) + (set q | q in db.quizzes :: q.id)
    + (set p | p in db.progress :: p.id)
  }

  /** Every stored id was issued by the counter before its current value. */
  ghost predicate IdsIssued(db: Db) {
    forall id | id in Ids(db) :: exists k: nat :: k < db.nextId && id == Decimal.NatToDecimal(k)
  }

  /** Under that invariant the next id belongs to no stored record. */
  lemma FreshIdIsNew(db: Db)
    requires IdsIssued(db)
    ensures FreshId(db) !in Ids(db)
  {
    if FreshId(db) in Ids(db) {
      var k: nat :| k < db.nextId && FreshId(db) == Decimal.NatToDecimal(k);
      Decimal.DecimalInjective(k, db.nextId);
      assert false;
    }
  }

  /** Storing records whose id is the fresh one and advancing the counter
      keeps every id issued. */
  lemma IssuingKeepsIdsIssued(db: Db, next: Db)
    requires IdsIssued(db)
    requires next.nextId == db.nextId + 1
    requires Ids(next) <= Ids(db) + {FreshId(db)}
    ensures IdsIssued(next)
  {
    forall id | id in Ids(next)
      ensures exists k: nat :: k < next.nextId && id == Decimal.NatToDecimal(k)
    {
      if id == FreshId(db) {
        assert db.nextId < next.nextId && id == Decimal.NatToDecimal(db.nextId);
      } else {
        var k: nat :| k < db.nextId && id == Decimal.NatToDecimal(k);
        assert k < next.nextId;
      }
    }
  }
}

/**
 * The SQLite database of bot.py as an object: the `users` table, the `transactions`
 * table and the `AUTOINCREMENT` counter behind transaction ids, with the three store
 * functions that write to them (`register_user`, `add_transaction`, `delete_transaction`).
 */
module Store {
  import opened Wrappers
  import opened Rows

  /** One row of `users(telegram_id, username, first_seen)`, keyed by `telegram_id`. */
  datatype User = User(username: Option<string>, firstSeen: Date)

  /** The `users` table after `register_user(id, username)` at time `now`: insert only if absent. */
  function Registered(users: map<UserId, User>, id: UserId, username: Option<string>, now: Date): (r: map<UserId, User>)
    ensures id in r && r.Keys == users.Keys + {id}
    ensures forall k :: k in users ==> k in r && r[k] == users[k]
    ensures r[id].firstSeen == if id in users then users[id].firstSeen else now
    ensures id !in users ==> r[id] == User(username, now)
  {
    if id in users then users else users[id := User(username, now)]
  }

  /** Registering twice is registering once: the second call inserts nothing and keeps `first_seen`. */
  lemma RegisterIdempotent(users: map<UserId, User>, id: UserId, name: Option<string>, now: Date,
                           name': Option<string>, later: Date)
    ensures Registered(Registered(users, id, name, now), id, name', later) == Registered(users, id, name, now)
  {
  }

  /** Strictly increasing ids: the order in which `AUTOINCREMENT` handed them out. */
  predicate IdsIncreasing(rows: seq<Transaction>) {
    forall i, j :: 0 <= i < j < |rows| ==> rows[i].id < rows[j].id
  }

  lemma {:induction false} SelectKeepsIncreasing(rows: seq<Transaction>, keep: Transaction -> bool)
    requires IdsIncreasing(rows)
    ensures IdsIncreasing(Select(rows, keep))
  {
    if rows != [] {
      var rest := Select(rows[1..], keep);
      SelectKeepsIncreasing(rows[1..], keep);
      forall t | t in rest ensures rows[0].id < t.id {
        var k :| 0 <= k < |rows| - 1 && rows[1..][k] == t;
        assert rows[k + 1] == t;
      }
    }
  }

  /** With ids handed out in increasing order, a delete removes one row or none, and keeps the order. */
  lemma DeleteRemovesAtMostOne(rows: seq<Transaction>, owner: UserId, txId: int)
    requires IdsIncreasing(rows)
    ensures var kept := Without(rows, owner, txId);
      && IdsIncreasing(kept)
      && (|kept| < |rows| <==> exists t :: t in rows && t.id == txId && t.owner == owner)
      && (|kept| < |rows| ==> |kept| == |rows| - 1)
      && (|kept| == |rows| ==> kept == rows)
  {
    assert UniqueIds(rows);
    SelectKeepsAll(rows, Stays(owner, txId));
    if t :| t in rows && t.id == txId && t.owner == owner {
      var i :| 0 <= i < |rows| && rows[i] == t;
      WithoutRemovesOne(rows, owner, txId, i);
    } else {
      WithoutNoMatch(rows, owner, txId);
    }
    SelectKeepsIncreasing(rows, Stays(owner, txId));
  }

  class Ledger {
    var users: map<UserId, User>
    var rows: seq<Transaction>
    /** The id the next insert gets: one more than the largest id ever handed out. */
    var nextId: nat
    /** Every transaction id handed out so far, deleted rows included. */
    ghost var issued: set<nat>

    ghost predicate Valid()
      reads this
    {
      && 1 <= nextId
      && (forall i: nat :: i in issued <==> 1 <= i < nextId)
      && IdsIncreasing(rows)
      && (forall t :: t in rows ==> t.id in issued)
    }

    /** A fresh database: both tables empty, the counter at its start. */
    constructor ()
      ensures Valid()
      ensures users == map[] && rows == [] && nextId == 1 && issued == {}
    {
      users := map[];
      rows := [];
      nextId := 1;
      issued := {};
    }

    /** `register_user(id, username)`, run at time `now`. */
    method RegisterUser(id: UserId, username: Option<string>, now: Date)
      requires Valid()
      modifies this
      ensures Valid()
      ensures users == Registered(old(users), id, username, now)
      ensures old(id in users) ==> users == old(users)
      ensures rows == old(rows) && nextId == old(nextId) && issued == old(issued)
    {
      if id !in users {
        users := users[id := User(username, now)];
      }
    }

    /**
     * `add_transaction(owner, kind, amount, description)`, run at time `now`: appends one row
     * and returns its id, which no earlier insert had, even one whose row was deleted since.
     */
    method AddTransaction(owner: UserId, kind: string, amount: real, description: string, now: Date)
      returns (id: nat)
      requires Valid()
      modifies this
      ensures Valid()
      ensures id !in old(issued) && forall j :: j in old(issued) ==> j < id
      ensures issued == old(issued) + {id} && nextId == id + 1
      ensures rows == old(rows) + [Transaction(id, owner, kind, amount, description, now)]
      ensures users == old(users)
    {
      id := nextId;
      rows := rows + [Transaction(id, owner, kind, amount, description, now)];
      nextId := nextId + 1;
      issued := issued + {id};
    }

    /**
     * `delete_transaction(owner, txId)`: removes the row with that id only if `owner` owns it,
     * and says whether a row went.
     */
    method DeleteTransaction(owner: UserId, txId: int) returns (removed: bool)
      requires Valid()
      modifies this
      ensures Valid()
      ensures removed <==> exists t :: t in old(rows) && t.id == txId && t.owner == owner
      ensures forall t :: t in rows ==> !(t.id == txId && t.owner == owner)
      ensures rows == Without(old(rows), owner, txId)
      ensures removed ==> |rows| == |old(rows)| - 1
      ensures !removed ==> rows == old(rows)
      ensures users == old(users) && nextId == old(nextId) && issued == old(issued)
    {
      var kept := Without(rows, owner, txId);
      DeleteRemovesAtMostOne(rows, owner, txId);
      removed := |kept| < |rows|;
      rows := kept;
    }
  }
}

/** The in-memory accounts, positions and pending orders, and the settler behind its queue. */
module Caches {
  import opened Clearance
  import opened Ledger

  class AccountCache {
    var accounts: Accounts

    constructor ()
      ensures accounts == map[]
    {
      accounts := map[];
    }

    /** Replaces whatever the user had. */
    method Load(user: int, balance: real, frozen: real)
      modifies this
      ensures accounts == old(accounts)[user := Account(balance, frozen)]
    {
      accounts := accounts[user := Account(balance, frozen)];
    }

    /** The available balance, zero for an unknown user. */
    method GetBalance(user: int) returns (available: real)
      ensures available == Available(accounts, user)
    {
      if user !in accounts {
        return 0.0;
      }
      return accounts[user].balance - accounts[user].frozen;
    }

    method Deduct(user: int, amount: real) returns (ok: bool)
      modifies this
      ensures ok <==> CanPay(old(accounts), user, amount)
      ensures accounts == if ok then Credit(old(accounts), user, -amount) else old(accounts)
    {
      if user !in accounts {
        return false;
      }
      var acc := accounts[user];
      if acc.balance - acc.frozen < amount {
        return false;
      }
      accounts := accounts[user := acc.(balance := acc.balance - amount)];
      ok := true;
    }

    method Freeze(user: int, amount: real) returns (ok: bool)
      modifies this
      ensures ok <==> CanPay(old(accounts), user, amount)
      ensures accounts == Ledger.Freeze(old(accounts), user, amount)
    {
      if user !in accounts {
        return false;
      }
      var acc := accounts[user];
      if acc.balance - acc.frozen < amount {
        return false;
      }
      accounts := accounts[user := acc.(frozen := acc.frozen + amount)];
      ok := true;
    }

    method Unfreeze(user: int, amount: real)
      modifies this
      ensures accounts == Ledger.Unfreeze(old(accounts), user, amount)
    {
      if user !in accounts {
        return;
      }
      var acc := accounts[user];
      acc := acc.(frozen := acc.frozen - amount);
      if acc.frozen < 0.0 {
        acc := acc.(frozen := 0.0);
      }
      accounts := accounts[user := acc];
    }

    method ReturnMarginWithPnl(user: int, margin: real, pnl: real)
      modifies this
      ensures accounts == Credit(old(accounts), user, margin + pnl)
    {
      if user !in accounts {
        return;
      }
      var acc := accounts[user];
      accounts := accounts[user := acc.(balance := acc.balance + margin + pnl)];
    }
  }

  /** Positions by id and, beside them, the ids of every user. */
  class PositionCache {
    var positions: Positions
    var userIndex: map<int, set<int>>

    /** The index names exactly the positions of each user. */
    ghost predicate Valid()
      reads this
    {
      && (forall id | id in positions ::
            && positions[id].id == id && positions[id].user in userIndex
            && id in userIndex[positions[id].user])
      && (forall u | u in userIndex :: forall id | id in userIndex[u] :: id in positions && positions[id].user == u)
    }

    constructor ()
      ensures Valid() && positions == map[]
    {
      positions, userIndex := map[], map[];
    }

    method Add(p: Position)
      requires Valid() && p.id !in positions
      modifies this
      ensures Valid() && positions == old(positions)[p.id := p]
    {
      positions := positions[p.id := p];
      var ids := if p.user in userIndex then userIndex[p.user] else {};
      userIndex := userIndex[p.user := ids + {p.id}];
    }

    method Remove(id: int)
      requires Valid()
      modifies this
      ensures Valid() && positions == old(positions) - {id}
    {
      if id !in positions {
        return;
      }
      var p := positions[id];
      positions := positions - {id};
      if p.user in userIndex {
        userIndex := userIndex[p.user := userIndex[p.user] - {id}];
      }
    }

    /** Replaces a position by a changed one of the same id and user. */
    method Update(id: int, p: Position)
      requires Valid() && (id in positions ==> p.id == id && p.user == positions[id].user)
      modifies `positions
      ensures Valid() && positions == if id in old(positions) then old(positions)[id := p] else old(positions)
    {
      if id !in positions {
        return;
      }
      positions := positions[id := p];
    }

    function IdsOf(user: int): (ids: set<int>)
      requires Valid()
      reads this
      ensures forall id :: id in ids <==> id in positions && positions[id].user == user
    {
      if user in userIndex then userIndex[user] else {}
    }

    /** Any position of the user that the trade may reduce. */
    method FindOpposite(user: int, tradeSide: Side) returns (found: bool, id: int)
      requires Valid()
      ensures found <==> AnyReducible(positions, user, tradeSide)
      ensures found ==> id in positions && Reducible(positions[id], user, tradeSide)
    {
      var left := IdsOf(user);
      while exists i :: i in left
        invariant left <= IdsOf(user)
        invariant forall i | i in IdsOf(user) && i !in left :: !Reducible(positions[i], user, tradeSide)
        decreases |left|
      {
        id :| id in left;
        var p := positions[id];
        if p.side == Flip(tradeSide) && (p.state.Active? || p.state.Closing? || p.state.ForceTPing?) {
          return true, id;
        }
        left := left - {id};
      }
      return false, 0;
    }

    /** Any active position of the user on the same side. */
    method FindSameDir(user: int, side: Side) returns (found: bool, id: int)
      requires Valid()
      ensures found <==> AnyGrowable(positions, user, side)
      ensures found ==> id in positions && Growable(positions[id], user, side)
    {
      var left := IdsOf(user);
      while exists i :: i in left
        invariant left <= IdsOf(user)
        invariant forall i | i in IdsOf(user) && i !in left :: !Growable(positions[i], user, side)
        decreases |left|
      {
        id :| id in left;
        var p := positions[id];
        if p.side == side && p.state.Active? {
          return true, id;
        }
        left := left - {id};
      }
      return false, 0;
    }

    /** All active positions, each once, in no particular order. */
    method GetAll() returns (all: seq<Position>)
      requires Valid()
      ensures forall p | p in all :: p.id in positions && positions[p.id] == p && p.state.Active?
      ensures forall id | id in positions && positions[id].state.Active? :: positions[id] in all
      ensures forall i, j | 0 <= i < j < |all| :: all[i].id != all[j].id
    {
      all := [];
      var left := positions.Keys;
      while exists i :: i in left
        invariant left <= positions.Keys
        invariant forall p | p in all :: p.id in positions && p.id !in left && positions[p.id] == p && p.state.Active?
        invariant forall id | id in positions && id !in left && positions[id].state.Active? :: positions[id] in all
        invariant forall i, j | 0 <= i < j < |all| :: all[i].id != all[j].id
        decreases |left|
      {
        var id :| id in left;
        var p := positions[id];
        left := left - {id};
        if p.state.Active? {
          assert forall q | q in all :: q.id != id;
          all := all + [p];
        }
      }
    }

    /** Only an active position changes state; the first caller wins. */
    method TrySetState(id: int, state: PosState) returns (ok: bool)
      requires Valid()
      modifies `positions
      ensures Valid() && (ok <==> id in old(positions) && old(positions)[id].state.Active?)
      ensures positions == if ok then old(positions)[id := old(positions)[id].(state := state)] else old(positions)
    {
      if id !in positions || !positions[id].state.Active? {
        return false;
      }
      Update(id, positions[id].(state := state));
      ok := true;
    }
  }

  /** The queue between trading and the database, and the accounts table behind it. */
  class Settler {
    var events: seq<Event>
    var db: Accounts

    constructor (rows: Accounts)
      ensures events == [] && db == rows
    {
      events, db := [], rows;
    }

    /** The row of a new user. */
    method Insert(user: int, balance: real)
      modifies `db
      ensures db == old(db)[user := Account(balance, 0.0)]
    {
      db := db[user := Account(balance, 0.0)];
    }

    method Submit(e: Event)
      modifies `events
      ensures events == old(events) + [e]
    {
      events := events + [e];
    }

    /** One event in one transaction. */
    method ProcessEvent(e: Event)
      modifies `db
      ensures db == Settled(old(db), e)
    {
      match e.kind
      case CreateOrderEvent =>
        if e.user > 0 && (e.balanceDelta != 0.0 || e.frozenDelta != 0.0) {
          db := UpdateBalance(db, e.user, e.balanceDelta, e.frozenDelta);
        }
      case TradeEvent =>
        if e.user > 0 && e.balanceDelta != 0.0 {
          db := UpdateBalance(db, e.user, e.balanceDelta, e.frozenDelta);
        }
      case CancelOrderEvent =>
        if e.user > 0 && e.balanceDelta != 0.0 {
          db := UpdateBalance(db, e.user, e.balanceDelta, e.frozenDelta);
        }
    }

    /** Takes the oldest event, as the worker does. */
    method ProcessNext()
      modifies this
      ensures events == (if old(events) == [] then [] else old(events)[1..])
      ensures db == if old(events) == [] then old(db) else Settled(old(db), old(events)[0])
    {
      if events == [] {
        return;
      }
      var e := events[0];
      events := events[1..];
      ProcessEvent(e);
    }

    /** Drains what is left. */
    method Stop()
      modifies this
      ensures events == [] && db == SettledAll(old(db), old(events))
    {
      while events != []
        invariant SettledAll(db, events) == SettledAll(old(db), old(events))
        decreases |events|
      {
        ProcessNext();
      }
    }
  }
}

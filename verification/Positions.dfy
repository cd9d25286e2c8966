/**
 Worst-case exposure: an open order counts with its whole quantity, a finished one with its fill.
 Sums are taken over order lists (as the risk manager does) and over the order table.
 */
module Positions {
  import opened Wrappers
  import opened Orders

  function ConservativeExposure(o: Order): int {
    if IsTerminal(o.status) then o.filledQuantity else o.quantity
  }

  function SignedQuantity(side: Side, quantity: int): int {
    if side == Buy then quantity else -quantity
  }

  function Contribution(o: Order): int {
    SignedQuantity(o.side, ConservativeExposure(o))
  }

  function Share(o: Order, symbol: string): int {
    if o.symbol == symbol then Contribution(o) else 0
  }

  /** Exposure in a symbol over a list of orders. */
  function ListExposure(orders: seq<Order>, symbol: string): int {
    if orders == [] then 0 else ListExposure(orders[..|orders| - 1], symbol) + Share(orders[|orders| - 1], symbol)
  }

  /** The same sum leaving one order out. */
  function ListExposureExcept(orders: seq<Order>, symbol: string, excluded: string): int {
    if orders == [] then 0
    else ListExposureExcept(orders[..|orders| - 1], symbol, excluded)
         + if orders[|orders| - 1].clientOrderId == excluded then 0 else Share(orders[|orders| - 1], symbol)
  }

  /** Exposure in a symbol over the order table. */
  ghost function Exposure(orders: map<string, Order>, symbol: string): int
    decreases |orders|
  {
    if orders == map[] then 0
    else
      var id :| id in orders;
      Share(orders[id], symbol) + Exposure(orders - {id}, symbol)
  }

  lemma {:induction false} ExposureSplits(orders: map<string, Order>, symbol: string, id: string)
    requires id in orders
    ensures Exposure(orders, symbol) == Share(orders[id], symbol) + Exposure(orders - {id}, symbol)
    decreases |orders|
  {
    var first :| first in orders && Exposure(orders, symbol) == Share(orders[first], symbol) + Exposure(orders - {first}, symbol);
    if first != id {
      ExposureSplits(orders - {first}, symbol, id);
      ExposureSplits(orders - {id}, symbol, first);
      assert orders - {first} - {id} == orders - {id} - {first};
    }
  }

  /** Replacing or adding one order moves the exposure by the difference of its shares. */
  lemma ExposureUpdates(orders: map<string, Order>, symbol: string, id: string, o: Order)
    ensures Exposure(orders[id := o], symbol)
            == Exposure(orders, symbol) - (if id in orders then Share(orders[id], symbol) else 0) + Share(o, symbol)
  {
    ExposureSplits(orders[id := o], symbol, id);
    if id in orders {
      ExposureSplits(orders, symbol, id);
      assert orders[id := o] - {id} == orders - {id};
    } else {
      assert orders[id := o] - {id} == orders;
    }
  }

  /** The list shows every order of the table once, under its own id. */
  ghost predicate Lists(list: seq<Order>, orders: map<string, Order>) {
    && (forall i :: 0 <= i < |list| ==> list[i].clientOrderId in orders && orders[list[i].clientOrderId] == list[i])
    && (forall i, j :: 0 <= i < j < |list| ==> list[i].clientOrderId != list[j].clientOrderId)
    && (forall id :: id in orders ==> exists i :: 0 <= i < |list| && list[i].clientOrderId == id)
  }

  lemma ListsWithoutLast(list: seq<Order>, orders: map<string, Order>)
    requires Lists(list, orders) && list != []
    ensures Lists(list[..|list| - 1], orders - {list[|list| - 1].clientOrderId})
  {
    var last := list[|list| - 1].clientOrderId;
    var shorter := list[..|list| - 1];
    forall id | id in orders - {last}
      ensures exists i :: 0 <= i < |shorter| && shorter[i].clientOrderId == id
    {
      var i :| 0 <= i < |list| && list[i].clientOrderId == id;
      assert shorter[i].clientOrderId == id;
    }
  }

  /** Summing a full listing gives the table's exposure, in whatever order it lists the orders. */
  lemma {:induction false} ListingSums(list: seq<Order>, orders: map<string, Order>, symbol: string)
    requires Lists(list, orders)
    ensures ListExposure(list, symbol) == Exposure(orders, symbol)
    decreases |list|
  {
    if list == [] {
      assert orders == map[];
    } else {
      var last := list[|list| - 1].clientOrderId;
      ListsWithoutLast(list, orders);
      ListingSums(list[..|list| - 1], orders - {last}, symbol);
      ExposureSplits(orders, symbol, last);
    }
  }

  lemma {:induction false} ExceptAbsent(list: seq<Order>, symbol: string, excluded: string)
    requires forall i :: 0 <= i < |list| ==> list[i].clientOrderId != excluded
    ensures ListExposureExcept(list, symbol, excluded) == ListExposure(list, symbol)
  {
    if list != [] {
      ExceptAbsent(list[..|list| - 1], symbol, excluded);
    }
  }

  /** Leaving one listed order out subtracts exactly its share. */
  lemma {:induction false} ListingSumsExcept(list: seq<Order>, orders: map<string, Order>, symbol: string, excluded: string)
    requires Lists(list, orders) && excluded in orders
    ensures ListExposureExcept(list, symbol, excluded) == Exposure(orders, symbol) - Share(orders[excluded], symbol)
    decreases |list|
  {
    var i :| 0 <= i < |list| && list[i].clientOrderId == excluded;
    var last := list[|list| - 1].clientOrderId;
    ListsWithoutLast(list, orders);
    ExposureSplits(orders, symbol, last);
    var shorter := list[..|list| - 1];
    if last == excluded {
      ExceptAbsent(shorter, symbol, excluded);
      ListingSums(shorter, orders - {last}, symbol);
    } else {
      ListingSumsExcept(shorter, orders - {last}, symbol, excluded);
    }
  }
}

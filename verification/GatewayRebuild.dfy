/**
 Rebuilding indexes and positions at startup. The loop over the recovered orders yields what the
 running gateway maintains by differences, whatever order the table lists them in.
 */
module GatewayRebuild {
  import opened Wrappers
  import opened Orders
  import opened Recovery
  import opened Positions
  import opened Gateway
  import opened GatewayHistory
  import opened GatewaySafety
  import opened JournalEnds

  /** Lets every key of a set lead to one order. */
  method IndexKeys(index: map<string, string>, keys: set<string>, id: string) returns (r: map<string, string>)
    ensures r == IndexedAll(index, keys, id)
  {
    r := index;
    var rest := keys;
    while rest != {}
      invariant rest <= keys && r == IndexedAll(index, keys - rest, id)
      decreases |rest|
    {
      var key :| key in rest;
      r := r[key := id];
      rest := rest - {key};
    }
    assert keys - {} == keys;
  }

  /** The startup loop: both indexes and the positions in one pass over the orders. */
  method RebuildIndexes(list: seq<Order>)
    returns (exchangeIndex: map<string, string>, clientIndex: map<string, string>, positions: seq<int>)
    ensures exchangeIndex == RebuiltExchangeIndex(list) && clientIndex == RebuiltClientIndex(list)
    ensures positions == RebuiltPositions(list)
  {
    hide Adjusted, Contribution, IndexedAll;
    exchangeIndex, clientIndex, positions := map[], map[], [0, 0];
    for i := 0 to |list|
      invariant exchangeIndex == RebuiltExchangeIndex(list[..i]) && clientIndex == RebuiltClientIndex(list[..i])
      invariant positions == RebuiltPositions(list[..i])
    {
      var o := list[i];
      assert list[..i + 1][..i] == list[..i];
      if o.exchangeOrderId != "" {
        exchangeIndex := exchangeIndex[o.exchangeOrderId := o.clientOrderId];
      }
      exchangeIndex := IndexKeys(exchangeIndex, o.exchangeOrderIdAliases, o.clientOrderId);
      clientIndex := clientIndex[o.clientOrderId := o.clientOrderId];
      clientIndex := IndexKeys(clientIndex, o.exchangeClientIdAliases, o.clientOrderId);
      positions := Adjusted(positions, o.symbol, Contribution(o));
    }
    assert list[..|list|] == list;
  }

  // ----- what the loop yields -----

  lemma SlotIsSymbol(symbol: string)
    ensures Slot(symbol).Some? ==> SYMBOLS[Slot(symbol).value] == symbol
    ensures Slot(symbol).None? ==> symbol != SYMBOLS[0] && symbol != SYMBOLS[1]
    ensures SYMBOLS[0] != SYMBOLS[1]
  {
    assert SYMBOLS[0][0] == 'B' && SYMBOLS[1][0] == 'E';
  }

  lemma {:induction false} PositionsSumListing(list: seq<Order>, k: nat)
    requires k < 2
    ensures RebuiltPositions(list)[k] == ListExposure(list, SYMBOLS[k])
  {
    hide Contribution, Slot;
    if list != [] {
      PositionsSumListing(list[..|list| - 1], k);
      SlotIsSymbol(list[|list| - 1].symbol);
    }
  }

  /** The rebuilt positions equal the exposure over the order table, for any listing of it. */
  lemma RebuiltPositionsAreExact(list: seq<Order>, orders: map<string, Order>, k: nat)
    requires Lists(list, orders) && k < 2
    ensures RebuiltPositions(list)[k] == Exposure(orders, SYMBOLS[k])
  {
    PositionsSumListing(list, k);
    ListingSums(list, orders, SYMBOLS[k]);
  }

  predicate NamedByVenue(o: Order, key: string) {
    (key == o.exchangeOrderId != "") || key in o.exchangeOrderIdAliases
  }

  predicate NamedByClient(o: Order, key: string) {
    key == o.clientOrderId || key in o.exchangeClientIdAliases
  }

  /** Indexing one more order: its names lead to it, everything else stays. */
  lemma OneMoreIndexed(index: map<string, string>, o: Order)
    ensures var r := IndexedAll(Indexed(index, o.exchangeOrderId, o.clientOrderId), o.exchangeOrderIdAliases, o.clientOrderId);
            && (forall key :: NamedByVenue(o, key) ==> key in r && r[key] == o.clientOrderId)
            && (forall key :: !NamedByVenue(o, key) ==> (key in r <==> key in index) && (key in r ==> r[key] == index[key]))
    ensures var r := IndexedAll(index[o.clientOrderId := o.clientOrderId], o.exchangeClientIdAliases, o.clientOrderId);
            && (forall key :: NamedByClient(o, key) ==> key in r && r[key] == o.clientOrderId)
            && (forall key :: !NamedByClient(o, key) ==> (key in r <==> key in index) && (key in r ==> r[key] == index[key]))
  {
  }

  /** An order of the list under this id has the name. */
  ghost predicate Listed(list: seq<Order>, id: string, key: string, named: (Order, string) -> bool) {
    exists i :: 0 <= i < |list| && list[i].clientOrderId == id && named(list[i], key)
  }

  lemma ListedLonger(list: seq<Order>, o: Order, id: string, key: string, named: (Order, string) -> bool)
    ensures Listed(list, id, key, named) ==> Listed(list + [o], id, key, named)
    ensures named(o, key) ==> Listed(list + [o], o.clientOrderId, key, named)
  {
    if Listed(list, id, key, named) {
      var i :| 0 <= i < |list| && list[i].clientOrderId == id && named(list[i], key);
      assert (list + [o])[i] == list[i];
    }
    assert (list + [o])[|list|] == o;
  }

  /** Every venue id of a listed order is a key, and every key leads to a listed order that has it. */
  lemma {:induction false} ExchangeIndexIsRebuilt(list: seq<Order>)
    ensures forall i, key :: 0 <= i < |list| && NamedByVenue(list[i], key) ==> key in RebuiltExchangeIndex(list)
    ensures forall key :: key in RebuiltExchangeIndex(list) ==> Listed(list, RebuiltExchangeIndex(list)[key], key, NamedByVenue)
  {
    hide IndexedAll, Indexed, NamedByVenue, Listed;
    if list != [] {
      var before, o := list[..|list| - 1], list[|list| - 1];
      ExchangeIndexIsRebuilt(before);
      OneMoreIndexed(RebuiltExchangeIndex(before), o);
      assert list == before + [o];
      forall key | key in RebuiltExchangeIndex(list)
        ensures Listed(list, RebuiltExchangeIndex(list)[key], key, NamedByVenue)
      {
        ListedLonger(before, o, RebuiltExchangeIndex(list)[key], key, NamedByVenue);
      }
    }
  }

  /** The same for client ids and their aliases. */
  lemma {:induction false} ClientIndexIsRebuilt(list: seq<Order>)
    ensures forall i, key :: 0 <= i < |list| && NamedByClient(list[i], key) ==> key in RebuiltClientIndex(list)
    ensures forall key :: key in RebuiltClientIndex(list) ==> Listed(list, RebuiltClientIndex(list)[key], key, NamedByClient)
  {
    hide IndexedAll, NamedByClient, Listed;
    if list != [] {
      var before, o := list[..|list| - 1], list[|list| - 1];
      ClientIndexIsRebuilt(before);
      OneMoreIndexed(RebuiltClientIndex(before), o);
      assert list == before + [o];
      forall key | key in RebuiltClientIndex(list)
        ensures Listed(list, RebuiltClientIndex(list)[key], key, NamedByClient)
      {
        ListedLonger(before, o, RebuiltClientIndex(list)[key], key, NamedByClient);
      }
    }
  }

  // ----- every journal that loads can be restarted from -----

  lemma {:induction false} ListingExists(orders: map<string, Order>) returns (list: seq<Order>)
    requires forall id :: id in orders ==> orders[id].clientOrderId == id
    ensures Lists(list, orders)
    decreases |orders|
  {
    if orders == map[] {
      list := [];
    } else {
      var id :| id in orders;
      var before := ListingExists(orders - {id});
      list := before + [orders[id]];
      ListingGrows(before, orders, id);
    }
  }

  lemma ListingGrows(before: seq<Order>, orders: map<string, Order>, id: string)
    requires id in orders && orders[id].clientOrderId == id && Lists(before, orders - {id})
    ensures Lists(before + [orders[id]], orders)
  {
    var list := before + [orders[id]];
    forall x | x in orders
      ensures exists i :: 0 <= i < |list| && list[i].clientOrderId == x
    {
      if x == id {
        assert list[|before|].clientOrderId == x;
      } else {
        assert x in orders - {id};
        var i :| 0 <= i < |before| && before[i].clientOrderId == x;
        assert list[i].clientOrderId == x;
      }
    }
  }

  /**
   In every reachable state a restart is possible exactly if the file loads: some listing of the orders
   in it exists.
   */
  lemma RestartIsPossibleExactly(s: State, events: nat) returns (list: seq<Order>)
    requires Safe(s)
    ensures Reloaded(s.file).Some? ==>
              Crash(s, list, events).threads == map[] && Crash(s, list, events).orders == RecoveredOrders(Survivors(s))
    ensures Reloaded(s.file).None? ==> forall l, e :: Crash(s, l, e) == s
  {
    hide Safe, RecoveredOrders, RebuiltExchangeIndex, RebuiltClientIndex, RebuiltPositions, Survivors, Reloaded, Lists;
    RecoveredAreKeyed(Survivors(s));
    list := ListingExists(RecoveredOrders(Survivors(s)));
  }

  lemma RecoveredAreKeyed(found: seq<Record>)
    ensures forall id :: id in RecoveredOrders(found) ==> RecoveredOrders(found)[id].clientOrderId == id
  {
    hide RecoveredOrders;
    forall id | id in RecoveredOrders(found)
      ensures RecoveredOrders(found)[id].clientOrderId == id
    {
      var newest := RecoveredIsNewest(found, id);
    }
  }

  /** Of what a restart finds of an order, one record is the newest. */
  lemma NewestFoundIsUnique(s: State, id: string, a: Record, b: Record)
    requires Safe(s) && IsNewest(Survivors(s), id, a) && IsNewest(Survivors(s), id, b)
    ensures a == b
  {
    hide StageOk, FileOk, Extends, Keyed, Survivors;
    SurvivorsAreIssued(s);
    assert a in s.issued && b in s.issued;
    assert a.sequence == b.sequence;
  }
}

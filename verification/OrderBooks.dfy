/** What the portfolio query counts, said without the weights that the ledgers are built on. */
module OrderBooks {
  import opened OrderTypes
  import opened Sums
  import opened OrderEngine

  /** Keys with nothing to add can be left out of a sum. */
  lemma {:induction false} LeavingOutZeros(m: map<string, real>, r: map<string, real>)
    requires r.Keys <= m.Keys && forall k <- m :: m[k] == if k in r then r[k] else 0.0
    ensures Total(m) == Total(r)
    decreases |m|
  {
    if m.Keys <= r.Keys {
      assert m == r;
    } else {
      var k :| k in m && k !in r;
      TotalRemove(m, k);
      LeavingOutZeros(m - {k}, r);
    }
  }

  lemma {:induction false} OnesAreCounted(m: map<string, real>)
    requires forall k <- m :: m[k] == 1.0
    ensures Total(m) == |m.Keys| as real
    decreases |m|
  {
    if m != map[] {
      var k :| k in m;
      TotalRemove(m, k);
      OnesAreCounted(m - {k});
      assert m.Keys == (m - {k}).Keys + {k};
    }
  }

  /** The count is the number of the user's rows that are new or partly filled. */
  lemma PositionsAreCounted(user: string, log: map<OrderId, Row>)
    ensures Booked(OpenPositions, user, log) ==
      |set id | id in log && log[id].user == user && (log[id].status == New || log[id].status == Partial)| as real
  {
    var open := set id | id in log && log[id].user == user && (log[id].status == New || log[id].status == Partial);
    var ones := map id | id in open :: 1.0;
    LeavingOutZeros(Weights(OpenPositions, user, log), ones);
    OnesAreCounted(ones);
    assert ones.Keys == open;
  }

  /** The notional is the sum, over those rows, of what is still to fill at the row's own price. */
  lemma NotionalIsSummed(user: string, log: map<OrderId, Row>)
    ensures Booked(OpenNotional, user, log) ==
      Total(map id | id in log && log[id].user == user && (log[id].status == New || log[id].status == Partial)
              :: (log[id].qty - log[id].filled) * log[id].price)
  {
    var r := map id | id in log && log[id].user == user && (log[id].status == New || log[id].status == Partial)
               :: (log[id].qty - log[id].filled) * log[id].price;
    LeavingOutZeros(Weights(OpenNotional, user, log), r);
  }

  lemma WeighOneMore(g: Gauge, user: string, log: map<OrderId, Row>, id: OrderId, row: Row)
    requires id !in log
    ensures Booked(g, user, log[id := row]) == Booked(g, user, log) + RowWeight(g, user, row)
  {
    assert Weights(g, user, log[id := row]) == Weights(g, user, log)[id := RowWeight(g, user, row)];
    TotalUpdate(Weights(g, user, log), id, RowWeight(g, user, row));
  }

  /** The two sums start from nothing. */
  lemma EmptyLogIsFree(user: string)
    ensures Booked(OpenNotional, user, map[]) == 0.0 && Booked(OpenPositions, user, map[]) == 0.0
  {
    assert Weights(OpenNotional, user, map[]) == map[];
    assert Weights(OpenPositions, user, map[]) == map[];
  }

  /** One row more adds what it has still to fill, at its own price, if it is an open row of the user. */
  lemma OneRowMoreNotional(user: string, log: map<OrderId, Row>, id: OrderId, row: Row)
    requires id !in log
    ensures Booked(OpenNotional, user, log[id := row]) == Booked(OpenNotional, user, log) +
      if row.user == user && (row.status == New || row.status == Partial)
      then (row.qty - row.filled) * row.price else 0.0
  {
    WeighOneMore(OpenNotional, user, log, id, row);
  }

  lemma OneRowMoreCounts(user: string, log: map<OrderId, Row>, id: OrderId, row: Row)
    requires id !in log
    ensures Booked(OpenPositions, user, log[id := row]) == Booked(OpenPositions, user, log) +
      if row.user == user && (row.status == New || row.status == Partial) then 1.0 else 0.0
  {
    WeighOneMore(OpenPositions, user, log, id, row);
  }
}

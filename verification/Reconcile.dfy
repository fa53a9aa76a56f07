/**
 The reconcile pass: for every account with locally open orders, ask the exchange which are still
 open, and learn the fate of the others. The pass is proved to give each row one verdict of its own,
 whatever order the maps are walked in.
 */
module Reconcile {
  import opened Prelude
  import opened OrderTypes

  /** How a status write ends. `Torn` is persisted although the caller sees an error. */
  datatype Write = Written | Lost | Torn

  /** What one exchange call depends on. */
  datatype Book = Book(account: string, mode: Mode, symbol: string)

  /** Everything the stores and exchanges answer during one pass; `None` and `false` are errors. */
  datatype World = World(
    accounts: Option<seq<string>>,
    lists: string -> bool,
    decrypts: string -> bool,
    builds: (string, Mode) -> bool,
    openOrders: Book -> Option<set<OrderId>>,
    getOrder: (Book, OrderId) -> Option<Fill>,
    markUnknown: OrderId -> Write,
    recordFinal: OrderId -> Write)

  const UNKNOWN := Fill(Status.Unknown, "", 0.0, 0.0)

  /** An invalid stored mode is read as testnet. */
  function ModeOf(row: Row): Mode {
    if row.mode == Unset then Testnet else row.mode
  }

  function BookOf(row: Row): Book {
    Book(row.account, ModeOf(row), row.symbol)
  }

  // ---- The verdict on one row --------------------------------------------------------------------

  /** The row of an order that the exchange no longer lists as open. */
  function Missing(w: World, id: OrderId, row: Row): Row {
    match w.markUnknown(id)
    case Lost => row
    case Torn => Patch(row, UNKNOWN)
    case Written =>
      var marked := Patch(row, UNKNOWN);
      match w.getOrder(BookOf(row), id)
      case None => marked
      case Some(f) => if w.recordFinal(id) == Lost then marked else Patch(marked, f)
  }

  /** The row is open, its account is listed, and every call up to the exchange's open list succeeds. */
  predicate Reached(w: World, row: Row) {
    && IsOpen(row.status)
    && w.accounts.Some? && row.account in w.accounts.value
    && w.decrypts(row.account)
    && w.builds(row.account, ModeOf(row))
    && w.openOrders(BookOf(row)).Some?
  }

  function Verdict(w: World, id: OrderId, row: Row): Row {
    if !Reached(w, row) || id in w.openOrders(BookOf(row)).value then row else Missing(w, id, row)
  }

  /** The log after one pass whose collection succeeded. */
  function Pass(w: World, log: map<OrderId, Row>): map<OrderId, Row> {
    map id | id in log :: Verdict(w, id, log[id])
  }

  /** The collection phase: one failed listing, of any account, abandons the pass. */
  predicate Collects(w: World) {
    w.accounts.Some? && forall a <- w.accounts.value :: w.lists(a)
  }

  function Outcome(w: World, log: map<OrderId, Row>): map<OrderId, Row> {
    if Collects(w) then Pass(w, log) else log
  }

  // ---- The nested loops ----------------------------------------------------------------------------

  datatype Local = Local(id: OrderId, row: Row)

  predicate Distinct(ls: seq<Local>) {
    forall i, j :: 0 <= i < j < |ls| ==> ls[i].id != ls[j].id
  }

  function Ids(ls: seq<Local>): set<OrderId> {
    set l <- ls :: l.id
  }

  lemma IdsSnoc(ls: seq<Local>, l: Local)
    ensures Ids(ls + [l]) == Ids(ls) + {l.id}
    ensures forall k <- ls :: k.id in Ids(ls)
  {
    assert l in ls + [l];
    assert forall k <- ls :: k in ls + [l];
  }

  /** The rows of one group, in their original order. */
  function Group(ls: seq<Local>, mode: Mode, symbol: string): seq<Local> {
    if ls == [] then []
    else
      var last := ls[|ls| - 1];
      Group(ls[..|ls| - 1], mode, symbol)
      + if ModeOf(last.row) == mode && last.row.symbol == symbol then [last] else []
  }

  lemma {:induction false} GroupIs(ls: seq<Local>, mode: Mode, symbol: string)
    ensures forall l :: l in Group(ls, mode, symbol) <==> l in ls && ModeOf(l.row) == mode && l.row.symbol == symbol
  {
    if ls != [] {
      GroupIs(ls[..|ls| - 1], mode, symbol);
      assert ls == ls[..|ls| - 1] + [ls[|ls| - 1]];
    }
  }

  lemma {:induction false} GroupDistinct(ls: seq<Local>, mode: Mode, symbol: string)
    requires Distinct(ls)
    ensures Distinct(Group(ls, mode, symbol))
  {
    if ls != [] {
      GroupDistinct(ls[..|ls| - 1], mode, symbol);
      GroupIs(ls[..|ls| - 1], mode, symbol);
    }
  }

  /** `done` rows have their verdict, the others are as they were, and exactly the reached ones were visited. */
  ghost predicate PartWay(w: World, was: map<OrderId, Row>, log: map<OrderId, Row>, done: set<OrderId>,
                          visits: seq<OrderId>) {
    && log.Keys == was.Keys
    && done <= was.Keys
    && (forall id <- log :: log[id] == if id in done then Verdict(w, id, was[id]) else was[id])
    && (forall i, j :: 0 <= i < j < |visits| ==> visits[i] != visits[j])
    && (forall id :: id in visits <==> id in done && Reached(w, was[id]))
  }

  /** A snapshot of rows of one account, still as they were. */
  ghost predicate Snapshot(was: map<OrderId, Row>, account: string, ls: seq<Local>) {
    && Distinct(ls)
    && forall l <- ls :: l.id in was && was[l.id] == l.row && IsOpen(l.row.status) && l.row.account == account
  }

  lemma VisitOne(w: World, was: map<OrderId, Row>, log: map<OrderId, Row>, done: set<OrderId>, visits: seq<OrderId>,
                 id: OrderId)
    requires PartWay(w, was, log, done, visits)
    requires id in was && id !in done && Reached(w, was[id])
    ensures PartWay(w, was, log[id := Verdict(w, id, was[id])], done + {id}, visits + [id])
  {
    var visits' := visits + [id];
    forall j | 0 <= j < |visits| ensures visits[j] != id {
      assert visits[j] in visits;
    }
    assert forall k :: k in visits' <==> k in visits || k == id;
  }

  /** One account's rows by mode, then by symbol. */
  type Groups = map<Mode, map<string, seq<Local>>>

  predicate Grouped(groups: Groups, rows: seq<Local>) {
    && groups.Keys == {Testnet, Mainnet}
    && (forall m <- groups, s <- groups[m] :: Group(rows, m, s) != [] && groups[m][s] == Group(rows, m, s))
    && (forall l <- rows :: l.row.symbol in groups[ModeOf(l.row)])
  }

  function AddToGroups(groups: Groups, l: Local): Groups
    requires groups.Keys == {Testnet, Mainnet}
  {
    var m, s := ModeOf(l.row), l.row.symbol;
    groups[m := groups[m][s := (if s in groups[m] then groups[m][s] else []) + [l]]]
  }

  lemma GroupSnoc(ls: seq<Local>, l: Local, m: Mode, s: string)
    ensures Group(ls + [l], m, s) == Group(ls, m, s) + if ModeOf(l.row) == m && l.row.symbol == s then [l] else []
  {
    assert (ls + [l])[..|ls|] == ls;
  }

  lemma NonEmptyIsGrouped(groups: Groups, ls: seq<Local>, m: Mode, s: string)
    requires Grouped(groups, ls) && m in groups && Group(ls, m, s) != []
    ensures s in groups[m]
  {
    GroupIs(ls, m, s);
    assert Group(ls, m, s)[0] in Group(ls, m, s);
  }

  lemma AddKeepsGrouped(groups: Groups, ls: seq<Local>, l: Local)
    requires Grouped(groups, ls)
    ensures Grouped(AddToGroups(groups, l), ls + [l])
  {
    var groups' := AddToGroups(groups, l);
    if Group(ls, ModeOf(l.row), l.row.symbol) != [] {
      NonEmptyIsGrouped(groups, ls, ModeOf(l.row), l.row.symbol);
    }
    forall m <- groups', s <- groups'[m]
      ensures Group(ls + [l], m, s) != [] && groups'[m][s] == Group(ls + [l], m, s)
    {
      GroupSnoc(ls, l, m, s);
    }
  }

  class Reconciler {
    var log: map<OrderId, Row>
    ghost var visits: seq<OrderId>

    constructor (log: map<OrderId, Row>)
      ensures this.log == log && visits == []
    {
      this.log, visits := log, [];
    }

    /** The open rows of one account. */
    method ListOpenForAccount(account: string) returns (rows: seq<Local>)
      ensures Snapshot(log, account, rows)
      ensures Ids(rows) == set id | id in log && IsOpen(log[id].status) && log[id].account == account
    {
      rows := [];
      var rest := log.Keys;
      while rest != {}
        invariant rest <= log.Keys
        invariant Snapshot(log, account, rows)
        invariant Ids(rows) == set id | id in log.Keys - rest && IsOpen(log[id].status) && log[id].account == account
      {
        var id :| id in rest;
        rest := rest - {id};
        if IsOpen(log[id].status) && log[id].account == account {
          IdsSnoc(rows, Local(id, log[id]));
          rows := rows + [Local(id, log[id])];
        }
      }
    }

    /** Learns the fate of an order that is no longer in the exchange's open list. */
    method ReconcileMissingLocal(w: World, l: Local)
      requires l.id in log && log[l.id] == l.row
      modifies this`log
      ensures log == old(log)[l.id := Missing(w, l.id, l.row)]
    {
      var mark := w.markUnknown(l.id);
      if mark != Lost {
        log := log[l.id := Patch(log[l.id], UNKNOWN)];
      }
      if mark != Written {
        return;
      }
      var got := w.getOrder(BookOf(l.row), l.id);
      if got.None? {
        return;
      }
      if w.recordFinal(l.id) != Lost {
        log := log[l.id := Patch(log[l.id], got.value)];
      }
    }

    /** Groups one account's rows by mode and symbol, so that one listing covers each group. */
    method GroupRows(rows: seq<Local>) returns (groups: Groups)
      ensures Grouped(groups, rows)
    {
      groups := map[Testnet := map[], Mainnet := map[]];
      for i := 0 to |rows|
        invariant Grouped(groups, rows[..i])
      {
        assert rows[..i + 1] == rows[..i] + [rows[i]];
        AddKeepsGrouped(groups, rows[..i], rows[i]);
        groups := AddToGroups(groups, rows[i]);
      }
      assert rows[..|rows|] == rows;
    }

    /** One listing, and a look at every row of its group. */
    method ReconcileGroup(w: World, account: string, mode: Mode, symbol: string, rows: seq<Local>,
                          ghost was: map<OrderId, Row>, ghost done: set<OrderId>)
      requires PartWay(w, was, log, done, visits) && Snapshot(was, account, rows) && Ids(rows) !! done
      requires forall l <- rows :: BookOf(l.row) == Book(account, mode, symbol)
      requires w.accounts.Some? && account in w.accounts.value && w.decrypts(account) && w.builds(account, mode)
      modifies this`log, this`visits
      ensures PartWay(w, was, log, done + Ids(rows), visits)
    {
      var remote := w.openOrders(Book(account, mode, symbol));
      if remote.None? {
        PassOver(w, was, log, done, visits, Ids(rows));
        return;
      }
      ghost var seen := done;
      for i := 0 to |rows|
        invariant seen == done + Ids(rows[..i])
        invariant PartWay(w, was, log, seen, visits)
      {
        assert rows[..i + 1] == rows[..i] + [rows[i]];
        NotYet(rows, i);
        IdsSnoc(rows[..i], rows[i]);
        VisitRow(w, rows[i], remote.value, was, seen);
        seen := seen + {rows[i].id};
      }
      assert rows[..|rows|] == rows;
    }

    /** Every listed account's open rows; one failed listing abandons the collection. */
    method CollectOpenByAccount(w: World) returns (ok: bool, open: map<string, seq<Local>>)
      ensures ok == Collects(w)
      ensures ok <==> w.accounts.Some? && forall a <- w.accounts.value :: w.lists(a)
      ensures ok ==> forall a <- open ::
                a in w.accounts.value && Snapshot(log, a, open[a]) && Ids(open[a]) == OpenOf(log, {a})
      ensures ok ==> forall a <- w.accounts.value :: a !in open ==> OpenOf(log, {a}) == {}
    {
      ok, open := false, map[];
      if w.accounts.None? {
        return;
      }
      for i := 0 to |w.accounts.value|
        invariant forall j :: 0 <= j < i ==> w.lists(w.accounts.value[j])
        invariant forall a <- open ::
                    a in w.accounts.value && Snapshot(log, a, open[a]) && Ids(open[a]) == OpenOf(log, {a})
        invariant forall j :: 0 <= j < i ==> w.accounts.value[j] !in open ==> OpenOf(log, {w.accounts.value[j]}) == {}
      {
        var account := w.accounts.value[i];
        if !w.lists(account) {
          return;
        }
        var rows := ListOpenForAccount(account);
        assert Ids(rows) == OpenOf(log, {account});
        if |rows| > 0 {
          open := open[account := rows];
        }
      }
      ok := true;
    }

    /**
     One pass. Every row gets its verdict, whatever order accounts, modes and symbols are walked in;
     each row that can be reached is looked at exactly once, and no other row is.
     */
    method ReconcileOnce(w: World) returns (ok: bool)
      modifies this`log, this`visits
      ensures ok == Collects(w)
      ensures ok <==> w.accounts.Some? && forall a <- w.accounts.value :: w.lists(a)
      ensures log == Outcome(w, old(log))
      ensures forall i, j :: 0 <= i < j < |visits| ==> visits[i] != visits[j]
      ensures forall id :: id in visits <==> ok && id in old(log) && Reached(w, old(log)[id])
    {
      visits := [];
      var open;
      ok, open := CollectOpenByAccount(w);
      if !ok {
        return;
      }
      ghost var was := log;
      var accounts := open.Keys;
      ghost var walked: set<string> := {};
      while accounts != {}
        invariant walked !! accounts && walked + accounts == open.Keys
        invariant PartWay(w, was, log, OpenOf(was, walked), visits)
      {
        var account :| account in accounts;
        accounts := accounts - {account};
        assert OpenOf(was, walked + {account}) == OpenOf(was, walked) + OpenOf(was, {account});
        ReconcileAccount(w, account, open[account], was, OpenOf(was, walked));
        walked := walked + {account};
      }
      CoversAll(w, was, log, open.Keys, visits);
    }

    /** All groups of one account. */
    method ReconcileAccount(w: World, account: string, rows: seq<Local>,
                            ghost was: map<OrderId, Row>, ghost done: set<OrderId>)
      requires PartWay(w, was, log, done, visits) && Snapshot(was, account, rows) && Ids(rows) !! done
      requires w.accounts.Some? && account in w.accounts.value
      modifies this`log, this`visits
      ensures PartWay(w, was, log, done + Ids(rows), visits)
    {
      if !w.decrypts(account) {
        PassOver(w, was, log, done, visits, Ids(rows));
        return;
      }
      var groups := GroupRows(rows);
      var modes := groups.Keys;
      while modes != {}
        invariant modes <= {Testnet, Mainnet}
        invariant PartWay(w, was, log, done + IdsOfModes(rows, {Testnet, Mainnet} - modes), visits)
      {
        var mode :| mode in modes;
        ghost var before := {Testnet, Mainnet} - modes;
        modes := modes - {mode};
        assert {Testnet, Mainnet} - modes == before + {mode};
        IdsOfModesGrow(rows, before, mode);
        if w.builds(account, mode) {
          ReconcileMode(w, account, mode, rows, groups, was, done + IdsOfModes(rows, before));
        } else {
          PassOver(w, was, log, done + IdsOfModes(rows, before), visits, IdsOfSymbols(rows, mode, SymbolsOf(rows)));
        }
      }
      AllModes(rows);
    }

    /** All symbols of one account under one mode, with one adapter. */
    method ReconcileMode(w: World, account: string, mode: Mode, rows: seq<Local>, groups: Groups,
                         ghost was: map<OrderId, Row>, ghost done: set<OrderId>)
      requires PartWay(w, was, log, done, visits) && Snapshot(was, account, rows)
      requires IdsOfSymbols(rows, mode, SymbolsOf(rows)) !! done
      requires Grouped(groups, rows) && mode in groups
      requires w.accounts.Some? && account in w.accounts.value && w.decrypts(account) && w.builds(account, mode)
      modifies this`log, this`visits
      ensures PartWay(w, was, log, done + IdsOfSymbols(rows, mode, SymbolsOf(rows)), visits)
    {
      var symbols := groups[mode].Keys;
      ghost var walked: set<string> := {};
      while symbols != {}
        invariant walked !! symbols && walked + symbols == groups[mode].Keys
        invariant PartWay(w, was, log, done + IdsOfSymbols(rows, mode, walked), visits)
      {
        var symbol :| symbol in symbols;
        symbols := symbols - {symbol};
        OneGroup(was, account, rows, mode, symbol, walked, done);
        ReconcileGroup(w, account, mode, symbol, groups[mode][symbol], was, done + IdsOfSymbols(rows, mode, walked));
        walked := walked + {symbol};
      }
      AllSymbols(groups, rows, mode);
    }

    /** One row of a group whose listing succeeded. */
    method VisitRow(w: World, l: Local, remote: set<OrderId>, ghost was: map<OrderId, Row>, ghost done: set<OrderId>)
      requires PartWay(w, was, log, done, visits)
      requires l.id in was && l.id !in done && was[l.id] == l.row
      requires Reached(w, l.row) && w.openOrders(BookOf(l.row)).value == remote
      modifies this`log, this`visits
      ensures PartWay(w, was, log, done + {l.id}, visits)
    {
      VisitOne(w, was, log, done, visits, l.id);
      if l.id !in remote {
        ReconcileMissingLocal(w, l);
      } else {
        assert log[l.id := l.row] == log;
      }
      visits := visits + [l.id];
    }
  }

  lemma NotYet(rows: seq<Local>, i: nat)
    requires Distinct(rows) && i < |rows|
    ensures rows[i].id !in Ids(rows[..i]) && rows[i].id in Ids(rows)
  {
    assert rows[i] in rows;
  }

  // ---- Which rows the outer loops have covered -------------------------------------------------

  function IdsOfModes(ls: seq<Local>, modes: set<Mode>): set<OrderId> {
    set l <- ls | ModeOf(l.row) in modes :: l.id
  }

  function IdsOfSymbols(ls: seq<Local>, mode: Mode, symbols: set<string>): set<OrderId> {
    set l <- ls | ModeOf(l.row) == mode && l.row.symbol in symbols :: l.id
  }

  function SymbolsOf(ls: seq<Local>): set<string> {
    set l <- ls :: l.row.symbol
  }

  /** Adding a mode adds exactly its rows, which are new. */
  lemma IdsOfModesGrow(ls: seq<Local>, modes: set<Mode>, mode: Mode)
    requires Distinct(ls) && mode !in modes
    ensures IdsOfModes(ls, modes + {mode}) == IdsOfModes(ls, modes) + IdsOfSymbols(ls, mode, SymbolsOf(ls))
    ensures IdsOfModes(ls, modes) !! IdsOfSymbols(ls, mode, SymbolsOf(ls))
    ensures IdsOfSymbols(ls, mode, SymbolsOf(ls)) <= Ids(ls)
  {
  }

  lemma AllModes(ls: seq<Local>)
    ensures IdsOfModes(ls, {Testnet, Mainnet}) == Ids(ls)
  {
  }

  lemma AllSymbols(groups: Groups, ls: seq<Local>, mode: Mode)
    requires Grouped(groups, ls) && mode in groups
    ensures IdsOfSymbols(ls, mode, groups[mode].Keys) == IdsOfSymbols(ls, mode, SymbolsOf(ls))
  {
  }

  /** A symbol not walked yet adds exactly its group, and none of its rows was there. */
  lemma IdsOfSymbolsGrow(ls: seq<Local>, mode: Mode, symbol: string, walked: set<string>)
    requires Distinct(ls) && symbol !in walked
    ensures IdsOfSymbols(ls, mode, walked + {symbol}) == IdsOfSymbols(ls, mode, walked) + Ids(Group(ls, mode, symbol))
    ensures Ids(Group(ls, mode, symbol)) !! IdsOfSymbols(ls, mode, walked)
    ensures Ids(Group(ls, mode, symbol)) <= IdsOfSymbols(ls, mode, SymbolsOf(ls))
  {
    GroupIs(ls, mode, symbol);
  }

  /** One group is a snapshot of its own, new to what is done, and adds exactly its symbol's rows. */
  lemma OneGroup(was: map<OrderId, Row>, account: string, ls: seq<Local>, mode: Mode, symbol: string,
                 walked: set<string>, done: set<OrderId>)
    requires Snapshot(was, account, ls) && symbol !in walked
    requires IdsOfSymbols(ls, mode, SymbolsOf(ls)) !! done
    ensures Snapshot(was, account, Group(ls, mode, symbol))
    ensures forall l <- Group(ls, mode, symbol) :: BookOf(l.row) == Book(account, mode, symbol)
    ensures done + IdsOfSymbols(ls, mode, walked + {symbol})
            == (done + IdsOfSymbols(ls, mode, walked)) + Ids(Group(ls, mode, symbol))
    ensures Ids(Group(ls, mode, symbol)) !! done + IdsOfSymbols(ls, mode, walked)
  {
    GroupIs(ls, mode, symbol);
    GroupDistinct(ls, mode, symbol);
    IdsOfSymbolsGrow(ls, mode, symbol, walked);
  }

  /** The open rows of some accounts. */
  function OpenOf(log: map<OrderId, Row>, accounts: set<string>): set<OrderId> {
    set id | id in log && IsOpen(log[id].status) && log[id].account in accounts
  }

  /** Once every account with open rows is done, so is the whole pass. */
  lemma CoversAll(w: World, was: map<OrderId, Row>, log: map<OrderId, Row>, walked: set<string>, visits: seq<OrderId>)
    requires PartWay(w, was, log, OpenOf(was, walked), visits) && w.accounts.Some?
    requires forall a <- w.accounts.value :: a !in walked ==> OpenOf(was, {a}) == {}
    ensures log == Pass(w, was)
    ensures forall id :: id in visits <==> id in was && Reached(w, was[id])
  {
    forall id <- was ensures id in OpenOf(was, walked) || !Reached(w, was[id]) {
      if Reached(w, was[id]) {
        assert id in OpenOf(was, {was[id].account});
      }
    }
  }

  /** Rows that the pass cannot reach count as done: their verdict is to stay. */
  lemma PassOver(w: World, was: map<OrderId, Row>, log: map<OrderId, Row>, done: set<OrderId>, visits: seq<OrderId>,
                 more: set<OrderId>)
    requires PartWay(w, was, log, done, visits)
    requires more <= was.Keys && forall id <- more :: !Reached(w, was[id])
    ensures PartWay(w, was, log, done + more, visits)
  {
  }

  // ---- What a pass achieves -------------------------------------------------------------------------

  predicate Agrees(row: Row, f: Fill) {
    row.status == f.status && row.exchangeId == f.exchangeId && row.filled == f.filled && row.avgPrice == f.avgPrice
  }

  /** The exchange's view overwrites the local one except where a zero value hides a local value. */
  predicate Overwrites(f: Fill, row: Row) {
    && f.status != Blank
    && (f.exchangeId == "" ==> row.exchangeId == "")
    && (f.filled > 0.0 || f.filled == row.filled)
    && (f.avgPrice > 0.0 || f.avgPrice == row.avgPrice)
  }

  /** No call about this row fails. */
  predicate Smooth(w: World, id: OrderId, row: Row) {
    Reached(w, row) && w.markUnknown(id) == Written && w.getOrder(BookOf(row), id).Some? && w.recordFinal(id) == Written
  }

  /**
   Where a row ends: untouched when it cannot be reached, is still listed, or cannot be marked; `unknown`
   when the exchange does not answer or the final write is lost; otherwise what the exchange reported,
   and exactly so if and only if no zero value in the report hides a local value.
   */
  lemma VerdictEndings(w: World, id: OrderId, row: Row)
    requires Reached(w, row) && id !in w.openOrders(BookOf(row)).value
    ensures var v := Verdict(w, id, row);
            && (w.markUnknown(id) == Lost ==> v == row)
            && (w.markUnknown(id) == Torn ==> v == row.(status := Unknown))
            && ((w.markUnknown(id) == Written && (w.getOrder(BookOf(row), id).None? || w.recordFinal(id) == Lost))
                ==> v == row.(status := Unknown))
            && (v.status == Unknown <==>
                  && w.markUnknown(id) != Lost
                  && (w.markUnknown(id) == Written && w.getOrder(BookOf(row), id).Some? && w.recordFinal(id) != Lost
                      ==> w.getOrder(BookOf(row), id).value.status in {Blank, Unknown}))
            && (Smooth(w, id, row) ==>
                  (Agrees(v, w.getOrder(BookOf(row), id).value)
                   <==> Overwrites(w.getOrder(BookOf(row), id).value, row)))
  {
    if Smooth(w, id, row) {
      var f := w.getOrder(BookOf(row), id).value;
      assert Verdict(w, id, row) == Patch(Patch(row, UNKNOWN), f);
      assert Agrees(Patch(Patch(row, UNKNOWN), f), f) <==> Overwrites(f, row);
    }
  }

  /**
   The verdict in full, with every call written out. A stored mode other than mainnet asks the testnet; only the
   answers about that one book, account and order matter; and each kind of failure stops where it happens.
   */
  lemma VerdictInFull(w: World, id: OrderId, row: Row)
    ensures var mode := if row.mode == Mainnet then Mainnet else Testnet;
            var book := Book(row.account, mode, row.symbol);
            var v := Verdict(w, id, row);
            if (row.status == New || row.status == Partial)
               && w.accounts.Some? && row.account in w.accounts.value
               && w.decrypts(row.account) && w.builds(row.account, mode)
               && w.openOrders(book).Some? && id !in w.openOrders(book).value
               && w.markUnknown(id) != Lost
            then
              if w.markUnknown(id) == Torn || w.getOrder(book, id).None? || w.recordFinal(id) == Lost
              then v == row.(status := Unknown)
              else
                var f := w.getOrder(book, id).value;
                v == row.(status := if f.status == Blank then Unknown else f.status,
                          exchangeId := if f.exchangeId == "" then row.exchangeId else f.exchangeId,
                          filled := if f.filled <= 0.0 then row.filled else f.filled,
                          avgPrice := if f.avgPrice <= 0.0 then row.avgPrice else f.avgPrice)
            else v == row
  {
  }

  /** Two worlds agree on what one exchange says about one order, and on what becomes of its writes. */
  predicate SameAnswers(w: World, w': World, book: Book, id: OrderId) {
    && (w.accounts.Some? && book.account in w.accounts.value
        <==> w'.accounts.Some? && book.account in w'.accounts.value)
    && w.decrypts(book.account) == w'.decrypts(book.account)
    && w.builds(book.account, book.mode) == w'.builds(book.account, book.mode)
    && w.openOrders(book) == w'.openOrders(book) && w.getOrder(book, id) == w'.getOrder(book, id)
    && w.markUnknown(id) == w'.markUnknown(id) && w.recordFinal(id) == w'.recordFinal(id)
  }

  /**
   A mainnet row is judged by the mainnet exchange alone, and every other row by the testnet alone: in passes
   that complete, whatever else differs between two worlds, the row ends the same.
   */
  lemma JudgedByItsOwnExchange(w: World, w': World, log: map<OrderId, Row>, id: OrderId)
    requires id in log && Collects(w) && Collects(w')
    requires log[id].mode == Mainnet ==> SameAnswers(w, w', Book(log[id].account, Mainnet, log[id].symbol), id)
    requires log[id].mode != Mainnet ==> SameAnswers(w, w', Book(log[id].account, Testnet, log[id].symbol), id)
    ensures id in Outcome(w, log) && id in Outcome(w', log) && Outcome(w, log)[id] == Outcome(w', log)[id]
  {
    VerdictInFull(w, id, log[id]);
    VerdictInFull(w', id, log[id]);
  }

  /** Every call about this order of this book succeeds. */
  predicate AllAnswer(w: World, book: Book, id: OrderId) {
    && w.accounts.Some? && book.account in w.accounts.value
    && w.decrypts(book.account) && w.builds(book.account, book.mode) && w.openOrders(book).Some?
    && w.markUnknown(id) == Written && w.getOrder(book, id).Some? && w.recordFinal(id) == Written
  }

  /** After a pass without errors a row is open exactly if it was and the exchange itself still says so. */
  lemma ConvergesToTheExchange(w: World, log: map<OrderId, Row>, id: OrderId)
    requires id in log && w.accounts.Some? && forall a <- w.accounts.value :: w.lists(a)
    requires log[id].status == New || log[id].status == Partial ==>
      AllAnswer(w, Book(log[id].account, if log[id].mode == Mainnet then Mainnet else Testnet, log[id].symbol), id)
    ensures var row := log[id];
            var book := Book(row.account, if row.mode == Mainnet then Mainnet else Testnet, row.symbol);
            var now := Outcome(w, log)[id].status;
            now == New || now == Partial <==>
            && (row.status == New || row.status == Partial)
            && (id in w.openOrders(book).value
                || w.getOrder(book, id).value.status == New || w.getOrder(book, id).value.status == Partial)
  {
    VerdictInFull(w, id, log[id]);
  }

  lemma VerdictIsSettled(w: World, id: OrderId, row: Row)
    ensures Verdict(w, id, Verdict(w, id, row)) == Verdict(w, id, row)
  {
    var v := Verdict(w, id, row);
    if v != row && IsOpen(v.status) {
      var f := w.getOrder(BookOf(row), id).value;
      assert v == Patch(Patch(row, UNKNOWN), f);
      assert BookOf(v) == BookOf(row);
      assert Patch(Patch(v, UNKNOWN), f) == v;
    }
  }

  /** A pass repeated with the same answers, good or bad, changes nothing more. */
  lemma RepeatingChangesNothing(w: World, log: map<OrderId, Row>)
    ensures Outcome(w, Outcome(w, log)) == Outcome(w, log)
  {
    forall id | id in log ensures Verdict(w, id, Verdict(w, id, log[id])) == Verdict(w, id, log[id]) {
      VerdictIsSettled(w, id, log[id]);
    }
  }

  /** The answers that concern one account. */
  ghost predicate SameFor(w: World, w': World, account: string) {
    && w.accounts.Some? && w'.accounts.Some?
    && (account in w.accounts.value <==> account in w'.accounts.value)
    && w.decrypts(account) == w'.decrypts(account)
    && (forall m :: w.builds(account, m) == w'.builds(account, m))
    && (forall m, s :: w.openOrders(Book(account, m, s)) == w'.openOrders(Book(account, m, s)))
    && (forall m, s, id :: w.getOrder(Book(account, m, s), id) == w'.getOrder(Book(account, m, s), id))
    && (forall id :: w.markUnknown(id) == w'.markUnknown(id) && w.recordFinal(id) == w'.recordFinal(id))
  }

  /**
   What happens to other accounts reaches this one only through the collection: given a pass whose
   collection succeeded, another pass with the same answers for this account leaves the row in the same
   state exactly when its collection succeeds as well, or there was nothing to change.
   */
  lemma IsolationExactly(w: World, w': World, log: map<OrderId, Row>, id: OrderId)
    requires id in log && SameFor(w, w', log[id].account) && Collects(w)
    ensures Outcome(w', log)[id] == Outcome(w, log)[id] <==> Collects(w') || Verdict(w, id, log[id]) == log[id]
  {
    var row := log[id];
    assert BookOf(row) == Book(row.account, ModeOf(row), row.symbol);
    assert Reached(w, row) == Reached(w', row);
    assert Verdict(w, id, row) == Verdict(w', id, row);
  }

  /** Pass after pass, each in a world of its own. */
  function Passes(ws: seq<World>, log: map<OrderId, Row>): map<OrderId, Row>
    decreases |ws|
  {
    if ws == [] then log else Passes(ws[1..], Outcome(ws[0], log))
  }

  /**
   A row outside the open set is never looked at again by any later pass. That settles terminal rows;
   it also means that a row left `unknown` by a failed `GetOrder` stays so, whatever the exchange answers later.
   */
  lemma {:induction false} ClosedRowsStay(ws: seq<World>, log: map<OrderId, Row>, id: OrderId)
    requires id in log && !IsOpen(log[id].status)
    ensures id in Passes(ws, log) && Passes(ws, log)[id] == log[id]
    decreases |ws|
  {
    if ws != [] {
      assert Verdict(ws[0], id, log[id]) == log[id];
      ClosedRowsStay(ws[1..], Outcome(ws[0], log), id);
    }
  }
}

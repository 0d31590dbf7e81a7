/**
 The new-order badge of controller/admin_finance.go. The badge asks two questions, what the latest completed
 order is and how many completed orders are later than a cursor, over the union of top-ups (those
 that no subscription shares a trade number with) and subscriptions. The fast form asks each
 table by itself; the slow form asks the union. Queries are functions on rows.
 */
module RechargeBadge {
  import opened Wrappers
  import opened Text

  datatype Row = Row(
    id: int, userId: int, tradeNo: string, provider: string, createTime: int, completeTime: int, status: string)

  datatype Tables = Tables(topups: seq<Row>, subscriptions: seq<Row>)

  datatype Filters = Filters(
    status: string, provider: string, orderType: string, userId: int, startTime: int, endTime: int)

  datatype Branch = Topup | Subscription

  /** A row of the union. */
  datatype Order = Order(branch: Branch, row: Row)

  datatype Cursor = Cursor(completeTime: int, rank: int, id: int)

  const NO_CURSOR: Cursor := Cursor(0, 0, 0)

  function Rank(b: Branch): int {
    if b == Subscription then 2 else 1
  }

  function CursorOf(o: Order): Cursor {
    Cursor(o.row.completeTime, Rank(o.branch), o.row.id)
  }

  function Compare(left: Cursor, right: Cursor): int {
    if left.completeTime != right.completeTime then
      if left.completeTime > right.completeTime then 1 else -1
    else if left.rank != right.rank then
      if left.rank > right.rank then 1 else -1
    else if left.id != right.id then
      if left.id > right.id then 1 else -1
    else 0
  }

  /** A strict total order, so that "the latest order" and "later than" mean something. */
  lemma CompareIsTotalOrder(a: Cursor, b: Cursor, c: Cursor)
    ensures Compare(a, b) == -Compare(b, a)
    ensures Compare(a, b) == 0 <==> a == b
    ensures Compare(a, b) > 0 && Compare(b, c) > 0 ==> Compare(a, c) > 0
  {
  }

  // ---------------------------------------------------------------- which rows count

  predicate Includes(f: Filters, b: Branch) {
    f.orderType == "" || f.orderType == "all" || f.orderType == if b == Topup then "topup" else "subscription"
  }

  predicate BranchWhere(f: Filters, row: Row) {
    && (f.userId > 0 ==> row.userId == f.userId)
    && (f.status != "" ==> row.status == f.status)
    && (f.provider != "" ==> row.provider == f.provider)
    && (f.startTime > 0 ==> row.createTime >= f.startTime)
    && (f.endTime > 0 ==> row.createTime <= f.endTime)
  }

  predicate HasSubscription(t: Tables, tradeNo: string) {
    exists i :: 0 <= i < |t.subscriptions| && t.subscriptions[i].tradeNo == tradeNo
  }

  predicate Selected(t: Tables, f: Filters, b: Branch, row: Row) {
    (b == Topup ==> !HasSubscription(t, row.tradeNo)) && BranchWhere(f, row)
  }

  predicate Completed(row: Row) {
    (row.status == "success" || row.status == "failed" || row.status == "expired") && row.completeTime > 0
  }

  function Rows(t: Tables, b: Branch): seq<Row> {
    if b == Topup then t.topups else t.subscriptions
  }

  // ---------------------------------------------------------------- the union form

  function Select(t: Tables, f: Filters, b: Branch, rows: seq<Row>): seq<Order> {
    if rows == [] then []
    else (if Selected(t, f, b, rows[0]) then [Order(b, rows[0])] else []) + Select(t, f, b, rows[1..])
  }

  function BranchOrders(t: Tables, f: Filters, b: Branch): seq<Order> {
    if Includes(f, b) then Select(t, f, b, Rows(t, b)) else []
  }

  function Union(t: Tables, f: Filters): seq<Order> {
    BranchOrders(t, f, Topup) + BranchOrders(t, f, Subscription)
  }

  /** The union's condition on an order: completed, and lexicographically after the cursor. */
  predicate NewOrder(o: Order, c: Cursor) {
    && Completed(o.row)
    && (|| o.row.completeTime > c.completeTime
        || (o.row.completeTime == c.completeTime && Rank(o.branch) > c.rank)
        || (o.row.completeTime == c.completeTime && Rank(o.branch) == c.rank && o.row.id > c.id))
  }

  function CountNew(orders: seq<Order>, c: Cursor): nat {
    if orders == [] then 0 else (if NewOrder(orders[0], c) then 1 else 0) + CountNew(orders[1..], c)
  }

  /** The first completed order by descending cursor. */
  function Latest(orders: seq<Order>): Option<Cursor> {
    if orders == [] then None
    else
      var rest := Latest(orders[1..]);
      if Completed(orders[0].row) then Later(Some(CursorOf(orders[0])), rest) else rest
  }

  function Later(a: Option<Cursor>, b: Option<Cursor>): Option<Cursor> {
    if a.None? then b else if b.None? || Compare(a.value, b.value) > 0 then a else b
  }

  function Scanned(c: Option<Cursor>): Cursor {
    if c.Some? then c.value else NO_CURSOR
  }

  // ---------------------------------------------------------------- the per-table form

  predicate BranchCondition(rank: int, c: Cursor, row: Row) {
    if rank > c.rank then row.completeTime > c.completeTime || row.completeTime == c.completeTime
    else if rank == c.rank then
      row.completeTime > c.completeTime || (row.completeTime == c.completeTime && row.id > c.id)
    else row.completeTime > c.completeTime
  }

  function CountBranch(t: Tables, f: Filters, b: Branch, c: Cursor, rows: seq<Row>): nat {
    if rows == [] then 0
    else
      var row := rows[0];
      (if Selected(t, f, b, row) && Completed(row) && BranchCondition(Rank(b), c, row) then 1 else 0)
      + CountBranch(t, f, b, c, rows[1..])
  }

  /** The first matching row by descending completion time and id. */
  function LatestRow(t: Tables, f: Filters, b: Branch, rows: seq<Row>): (r: Option<Row>)
    ensures r.Some? ==> Completed(r.value)
  {
    if rows == [] then None
    else
      var row, rest := rows[0], LatestRow(t, f, b, rows[1..]);
      if !(Selected(t, f, b, row) && Completed(row)) then rest
      else if rest.None? || row.completeTime > rest.value.completeTime ||
              (row.completeTime == rest.value.completeTime && row.id > rest.value.id) then Some(row)
      else rest
  }

  function BranchLatest(t: Tables, f: Filters, b: Branch): Cursor {
    var r := LatestRow(t, f, b, Rows(t, b));
    if r.Some? then Cursor(r.value.completeTime, Rank(b), r.value.id) else NO_CURSOR
  }

  /** The per-table latest cursor is the union's. */
  method LatestBadgeCursor(t: Tables, f: Filters) returns (latest: Cursor)
    ensures latest == Scanned(Latest(Union(t, f)))
  {
    latest := NO_CURSOR;
    if Includes(f, Topup) {
      var cursor := BranchLatest(t, f, Topup);
      if Compare(cursor, latest) > 0 {
        latest := cursor;
      }
    }
    if Includes(f, Subscription) {
      var cursor := BranchLatest(t, f, Subscription);
      if Compare(cursor, latest) > 0 {
        latest := cursor;
      }
    }
    LatestByBranch(t, f);
  }

  /** The per-table counts add up to the union's. */
  method CountBadgeOrders(raw: string, t: Tables, f: Filters) returns (total: nat)
    ensures total == UnionCount(raw, t, f)
  {
    var cursor := ParseCursor(raw);
    if cursor.None? {
      return 0;
    }
    total := 0;
    if Includes(f, Topup) {
      var count := CountBranch(t, f, Topup, cursor.value, t.topups);
      total := total + count;
    }
    if Includes(f, Subscription) {
      var count := CountBranch(t, f, Subscription, cursor.value, t.subscriptions);
      total := total + count;
    }
    CountByBranch(t, f, cursor.value);
  }

  function UnionCount(raw: string, t: Tables, f: Filters): nat {
    var c := ParseCursor(raw);
    if c.None? then 0 else CountNew(Union(t, f), c.value)
  }

  /** Both answers, for a request without a keyword: they are the union's, and they fit each other. */
  method BadgeSummary(raw: string, t: Tables, f: Filters) returns (latest: Cursor, count: nat)
    ensures latest == Scanned(Latest(Union(t, f)))
    ensures count == UnionCount(raw, t, f)
    ensures count > 0 <==> ParseCursor(raw).Some? && Compare(latest, ParseCursor(raw).value) > 0
  {
    latest := LatestBadgeCursor(t, f);
    count := CountBadgeOrders(raw, t, f);
    if ParseCursor(raw).Some? {
      NewOrdersIffLatestIsLater(Union(t, f), ParseCursor(raw).value);
    }
  }

  // ---------------------------------------------------------------- the two forms agree

  lemma {:induction false} SelectionCounts(t: Tables, f: Filters, b: Branch, rows: seq<Row>, o: Order)
    ensures multiset(Select(t, f, b, rows))[o] ==
      if o.branch == b && Selected(t, f, b, o.row) then multiset(rows)[o.row] else 0
  {
    if rows != [] {
      SelectionCounts(t, f, b, rows[1..], o);
      assert rows == [rows[0]] + rows[1..];
    }
  }

  /** The order is of a kind, user, status, provider and time of creation that is asked for. */
  predicate Wanted(f: Filters, b: Branch, row: Row) {
    && (f.orderType == "" || f.orderType == "all" ||
        (b == Topup && f.orderType == "topup") || (b == Subscription && f.orderType == "subscription"))
    && (f.userId <= 0 || row.userId == f.userId)
    && (f.status == "" || row.status == f.status)
    && (f.provider == "" || row.provider == f.provider)
    && (f.startTime <= 0 || f.startTime <= row.createTime)
    && (f.endTime <= 0 || row.createTime <= f.endTime)
  }

  /** The union holds each wanted order as often as its table, a top-up only if no subscription has its trade number. */
  lemma UnionMembers(t: Tables, f: Filters, o: Order)
    ensures multiset(Union(t, f))[o] ==
      if Wanted(f, o.branch, o.row) &&
         (o.branch == Topup ==> forall i :: 0 <= i < |t.subscriptions| ==> t.subscriptions[i].tradeNo != o.row.tradeNo)
      then multiset(if o.branch == Topup then t.topups else t.subscriptions)[o.row] else 0
  {
    SelectionCounts(t, f, Topup, t.topups, o);
    SelectionCounts(t, f, Subscription, t.subscriptions, o);
  }

  /** Both spellings of the condition say "later than the cursor". */
  lemma ConditionIsLexicographic(b: Branch, c: Cursor, row: Row)
    ensures BranchCondition(Rank(b), c, row) <==> Compare(CursorOf(Order(b, row)), c) > 0
    ensures NewOrder(Order(b, row), c) <==> Completed(row) && Compare(CursorOf(Order(b, row)), c) > 0
  {
  }

  /** Time first, then top-ups before subscriptions, then the number; and only orders that came to an end count. */
  lemma NewOrderMeans(o: Order, c: Cursor)
    ensures var rank := if o.branch == Topup then 1 else 2;
      NewOrder(o, c) <==>
      && o.row.status in {"success", "failed", "expired"} && o.row.completeTime > 0
      && (|| o.row.completeTime > c.completeTime
          || (o.row.completeTime == c.completeTime && rank > c.rank)
          || (o.row.completeTime == c.completeTime && rank == c.rank && o.row.id > c.id))
  {
  }

  /** The count is the number of places in the union that hold a new order. */
  lemma {:induction false} CountIsNumber(orders: seq<Order>, c: Cursor)
    ensures CountNew(orders, c) == |set i | 0 <= i < |orders| && NewOrder(orders[i], c)|
  {
    if orders != [] {
      var n := |orders| - 1;
      var front := orders[..n];
      assert orders == front + [orders[n]];
      CountIsNumber(front, c);
      CountOfBoth(front, [orders[n]], c);
      assert CountNew([orders[n]], c) == if NewOrder(orders[n], c) then 1 else 0;
      var before := set i | 0 <= i < |front| && NewOrder(front[i], c);
      assert (set i | 0 <= i < |orders| && NewOrder(orders[i], c)) ==
             before + if NewOrder(orders[n], c) then {n} else {};
    }
  }

  lemma {:induction false} CountOfSelection(t: Tables, f: Filters, b: Branch, c: Cursor, rows: seq<Row>)
    ensures CountBranch(t, f, b, c, rows) == CountNew(Select(t, f, b, rows), c)
  {
    if rows != [] {
      CountOfSelection(t, f, b, c, rows[1..]);
      ConditionIsLexicographic(b, c, rows[0]);
      if Selected(t, f, b, rows[0]) {
        assert Select(t, f, b, rows)[1..] == Select(t, f, b, rows[1..]);
      } else {
        assert Select(t, f, b, rows) == Select(t, f, b, rows[1..]);
      }
    }
  }

  lemma {:induction false} CountOfBoth(xs: seq<Order>, ys: seq<Order>, c: Cursor)
    ensures CountNew(xs + ys, c) == CountNew(xs, c) + CountNew(ys, c)
  {
    if xs == [] {
      assert xs + ys == ys;
    } else {
      CountOfBoth(xs[1..], ys, c);
      assert (xs + ys)[1..] == xs[1..] + ys;
    }
  }

  lemma CountByBranch(t: Tables, f: Filters, c: Cursor)
    ensures CountNew(Union(t, f), c) ==
      (if Includes(f, Topup) then CountBranch(t, f, Topup, c, t.topups) else 0) +
      (if Includes(f, Subscription) then CountBranch(t, f, Subscription, c, t.subscriptions) else 0)
  {
    CountOfSelection(t, f, Topup, c, t.topups);
    CountOfSelection(t, f, Subscription, c, t.subscriptions);
    CountOfBoth(BranchOrders(t, f, Topup), BranchOrders(t, f, Subscription), c);
  }

  lemma {:induction false} LatestOfSelection(t: Tables, f: Filters, b: Branch, rows: seq<Row>)
    ensures var r := LatestRow(t, f, b, rows);
      Latest(Select(t, f, b, rows)) == if r.Some? then Some(CursorOf(Order(b, r.value))) else None
  {
    if rows != [] {
      LatestOfSelection(t, f, b, rows[1..]);
      if Selected(t, f, b, rows[0]) {
        assert Select(t, f, b, rows)[1..] == Select(t, f, b, rows[1..]);
      } else {
        assert Select(t, f, b, rows) == Select(t, f, b, rows[1..]);
      }
    }
  }

  lemma {:induction false} LatestOfBoth(xs: seq<Order>, ys: seq<Order>)
    ensures Latest(xs + ys) == Later(Latest(xs), Latest(ys))
  {
    if xs == [] {
      assert xs + ys == ys;
    } else {
      LatestOfBoth(xs[1..], ys);
      assert (xs + ys)[1..] == xs[1..] + ys;
    }
  }

  lemma LatestByBranch(t: Tables, f: Filters)
    ensures Latest(Union(t, f)) == Later(Latest(BranchOrders(t, f, Topup)), Latest(BranchOrders(t, f, Subscription)))
    ensures forall b: Branch :: Includes(f, b) ==> Scanned(Latest(BranchOrders(t, f, b))) == BranchLatest(t, f, b)
    ensures forall b: Branch :: Latest(BranchOrders(t, f, b)).Some? ==>
            Includes(f, b) && BranchLatest(t, f, b).completeTime > 0
  {
    LatestOfBoth(BranchOrders(t, f, Topup), BranchOrders(t, f, Subscription));
    LatestOfSelection(t, f, Topup, t.topups);
    LatestOfSelection(t, f, Subscription, t.subscriptions);
  }

  // ---------------------------------------------------------------- what the answers mean

  /** Latest is the greatest cursor of a completed order, and is missing only if there is none. */
  lemma {:induction false} LatestIsGreatest(orders: seq<Order>)
    ensures Latest(orders).None? <==> forall i :: 0 <= i < |orders| ==> !Completed(orders[i].row)
    ensures Latest(orders).Some? ==>
      exists i :: 0 <= i < |orders| && Completed(orders[i].row) && CursorOf(orders[i]) == Latest(orders).value
    ensures forall i :: 0 <= i < |orders| && Completed(orders[i].row) ==>
      Latest(orders).Some? && Compare(CursorOf(orders[i]), Latest(orders).value) <= 0
  {
    if orders != [] {
      var rest := orders[1..];
      LatestIsGreatest(rest);
      assert forall i :: 1 <= i < |orders| ==> orders[i] == rest[i - 1];
      if i :| 0 <= i < |rest| && Completed(rest[i].row) && CursorOf(rest[i]) == Scanned(Latest(rest)) {
        assert orders[i + 1] == rest[i];
      }
    }
  }

  lemma {:induction false} NoneNew(orders: seq<Order>, c: Cursor)
    ensures CountNew(orders, c) == 0 <==> forall i :: 0 <= i < |orders| ==> !NewOrder(orders[i], c)
  {
    if orders != [] {
      NoneNew(orders[1..], c);
      assert forall i :: 1 <= i < |orders| ==> orders[i] == orders[1..][i - 1];
    }
  }

  /** The badge lights up exactly when the latest order is later than the cursor it is asked about. */
  lemma NewOrdersIffLatestIsLater(orders: seq<Order>, c: Cursor)
    requires c.completeTime >= 0 && c.rank >= 0 && c.id >= 0
    ensures CountNew(orders, c) > 0 <==> Compare(Scanned(Latest(orders)), c) > 0
  {
    LatestIsGreatest(orders);
    NoneNew(orders, c);
    if CountNew(orders, c) > 0 {
      var i :| 0 <= i < |orders| && NewOrder(orders[i], c);
      ConditionIsLexicographic(orders[i].branch, c, orders[i].row);
      assert orders[i] == Order(orders[i].branch, orders[i].row);
    }
    if Compare(Scanned(Latest(orders)), c) > 0 {
      var i :| 0 <= i < |orders| && Completed(orders[i].row) && CursorOf(orders[i]) == Latest(orders).value;
      ConditionIsLexicographic(orders[i].branch, c, orders[i].row);
      assert orders[i] == Order(orders[i].branch, orders[i].row);
    }
  }

  // ---------------------------------------------------------------- cursors as text

  function ParseCursor(raw: string): (r: Option<Cursor>)
    ensures r.Some? ==> r.value.completeTime >= 0 && r.value.rank >= 0 && r.value.id >= 0
  {
    var text := Trim(raw);
    var parts := Split(text, ':');
    if text == "" || |parts| != 3 then None
    else
      var time, rank, id := ParseInt(parts[0]), ParseInt(parts[1]), ParseInt(parts[2]);
      if time.None? || time.value < 0 || rank.None? || rank.value < 0 || id.None? || id.value < 0 then None
      else Some(Cursor(time.value, rank.value, id.value))
  }

  function FormatCursor(c: Cursor): string {
    if c.completeTime < 0 || c.rank < 0 || c.id < 0 then ""
    else Digits(c.completeTime) + ":" + Digits(c.rank) + ":" + Digits(c.id)
  }

  predicate Fits64(c: Cursor) {
    c.completeTime <= MAX_INT64 && c.rank <= MAX_INT64 && c.id <= MAX_INT64
  }

  /** Reading back a written cursor gives the cursor, except that one with a negative part is written as nothing. */
  lemma CursorRoundTrip(c: Cursor)
    requires Fits64(c)
    ensures ParseCursor(FormatCursor(c)) == if c.completeTime < 0 || c.rank < 0 || c.id < 0 then None else Some(c)
  {
    hide Digits, Value, Join, Split, AllDigits;
    if c.completeTime >= 0 && c.rank >= 0 && c.id >= 0 {
      CursorParts(c);
      ParseUndoesDigits(c.completeTime);
      ParseUndoesDigits(c.rank);
      ParseUndoesDigits(c.id);
    }
  }

  /** A written cursor has nothing to trim and splits into its three numbers. */
  lemma CursorParts(c: Cursor)
    requires c.completeTime >= 0 && c.rank >= 0 && c.id >= 0
    ensures var text := FormatCursor(c);
      && text != "" && Trim(text) == text
      && Split(text, ':') == [Digits(c.completeTime), Digits(c.rank), Digits(c.id)]
  {
    hide Split, Trim;
    var parts := [Digits(c.completeTime), Digits(c.rank), Digits(c.id)];
    var text := FormatCursor(c);
    ThreeJoined(parts[0], parts[1], parts[2]);
    forall i | 0 <= i < |parts| ensures ':' !in parts[i] {
      assert AllDigits(parts[i]);
    }
    SplitUndoesJoin(parts, ':');
    assert Trimmed(text) by {
      assert text[0] == parts[0][0] && IsDigit(parts[0][0]);
      assert text[|text| - 1] == parts[2][|parts[2]| - 1] && IsDigit(parts[2][|parts[2]| - 1]);
    }
  }

  lemma ThreeJoined(a: string, b: string, c: string)
    ensures Join([a, b, c], ':') == a + ":" + b + ":" + c
  {
    assert [a, b, c][1..] == [b, c] && [b, c][1..] == [c];
    assert Join([c], ':') == c;
    assert Join([b, c], ':') == b + ":" + c;
  }

  /** How a cursor is written. */
  lemma CursorText()
    ensures FormatCursor(Cursor(12, 1, 3)) == "12:1:3"
  {
    assert Digits(12) == "12" && Digits(1) == "1" && Digits(3) == "3";
  }

  /** Asking again with the latest cursor, as the client received it, finds nothing new. */
  lemma LatestCursorIsQuiet(t: Tables, f: Filters)
    requires Fits64(Scanned(Latest(Union(t, f))))
    ensures UnionCount(FormatCursor(Scanned(Latest(Union(t, f)))), t, f) == 0
  {
    var latest := Scanned(Latest(Union(t, f)));
    CursorRoundTrip(latest);
    if latest.completeTime >= 0 && latest.rank >= 0 && latest.id >= 0 {
      NewOrdersIffLatestIsLater(Union(t, f), latest);
    }
  }
}

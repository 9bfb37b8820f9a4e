/**
 * The two tables the service reads, and the one hand-written query over
 * them: the transactions of a client dated on or after a given day, newest
 * first.
 */
module Repository {
  import opened Model

  /** A row of the transactions table: the owner's id (the client_id column) and the record. */
  datatype TransactionRow = TransactionRow(clientId: ClientId, tx: Transaction)

  /** The clients table keyed by id, and the transactions table in storage order. */
  datatype Store = Store(clients: map<ClientId, Client>, rows: seq<TransactionRow>)

  /** The WHERE clause of the query: same client and date >= fromDate (inclusive,
      although the query method's name says "After"). */
  predicate InWindow(row: TransactionRow, clientId: ClientId, fromDate: Date)
  {
    row.clientId == clientId && row.tx.date >= fromDate
  }

  /** The ORDER BY clause: dates never increase along the list. */
  predicate NewestFirst(s: seq<Transaction>)
  {
    forall i, j :: 0 <= i < j < |s| ==> s[i].date >= s[j].date
  }

  /** How many rows of the client dated in the window hold the record t. */
  function WindowCount(rows: seq<TransactionRow>, clientId: ClientId, fromDate: Date, t: Transaction): nat
  {
    if |rows| == 0 then 0
    else (if InWindow(rows[0], clientId, fromDate) && rows[0].tx == t then 1 else 0)
         + WindowCount(rows[1..], clientId, fromDate, t)
  }

  /** The records of the rows the WHERE clause keeps, in storage order: each
      record as often as a row in the window holds it. */
  function Selected(rows: seq<TransactionRow>, clientId: ClientId, fromDate: Date): (r: seq<Transaction>)
    ensures forall t :: t in r ==>
      exists i :: 0 <= i < |rows| && InWindow(rows[i], clientId, fromDate) && rows[i].tx == t
    ensures forall i :: 0 <= i < |rows| && InWindow(rows[i], clientId, fromDate) ==> rows[i].tx in r
  {
    if |rows| == 0 then []
    else
      var rest := Selected(rows[1..], clientId, fromDate);
      assert forall i :: 1 <= i < |rows| ==> rows[i] == rows[1..][i - 1];
      if InWindow(rows[0], clientId, fromDate) then [rows[0].tx] + rest else rest
  }

  /** Selected holds every record exactly as often as the rows in the window hold it. */
  lemma {:induction false} SelectedCount(rows: seq<TransactionRow>, clientId: ClientId, fromDate: Date, t: Transaction)
    ensures multiset(Selected(rows, clientId, fromDate))[t] == WindowCount(rows, clientId, fromDate, t)
  {
    if |rows| > 0 {
      SelectedCount(rows[1..], clientId, fromDate, t);
    }
  }

  /** A record no older than the head of a newest-first list can go in front of it. */
  lemma NewestFirstCons(x: Transaction, s: seq<Transaction>)
    requires NewestFirst(s)
    requires |s| == 0 || x.date >= s[0].date
    ensures NewestFirst([x] + s)
  {
    forall i, j | 0 <= i < j < |[x] + s| ensures ([x] + s)[i].date >= ([x] + s)[j].date {
      if i > 0 {
        assert ([x] + s)[i] == s[i - 1];
      }
      assert ([x] + s)[j] == s[j - 1];
    }
  }

  /** Places t before the first record that is not newer than it. */
  function InsertNewestFirst(t: Transaction, s: seq<Transaction>): (r: seq<Transaction>)
    requires NewestFirst(s)
    ensures NewestFirst(r)
    ensures multiset(r) == multiset(s) + multiset{t}
    ensures |r| > 0 && (r[0] == t || (|s| > 0 && r[0] == s[0]))
  {
    if |s| == 0 || t.date >= s[0].date then
      NewestFirstCons(t, s);
      [t] + s
    else
      var rest := InsertNewestFirst(t, s[1..]);
      assert |s| > 1 ==> s[0].date >= s[1].date;
      NewestFirstCons(s[0], rest);
      assert s == [s[0]] + s[1..];
      [s[0]] + rest
  }

  /** Orders records newest first; records of the same date keep their relative order. */
  function SortNewestFirst(s: seq<Transaction>): (r: seq<Transaction>)
    ensures NewestFirst(r)
    ensures multiset(r) == multiset(s)
  {
    if |s| == 0 then []
    else
      assert s == [s[0]] + s[1..];
      InsertNewestFirst(s[0], SortNewestFirst(s[1..]))
  }

  /** TransactionRepository.findByClientIdAndDateAfter: newest first, and holding
      exactly the records of that client's rows dated on or after fromDate, each
      once per such row. */
  function FindByClientIdAndDateAfter(rows: seq<TransactionRow>, clientId: ClientId, fromDate: Date)
    : (r: seq<Transaction>)
    ensures NewestFirst(r)
    ensures forall t :: t in r ==>
      exists i :: 0 <= i < |rows| && InWindow(rows[i], clientId, fromDate) && rows[i].tx == t
    ensures forall i :: 0 <= i < |rows| && InWindow(rows[i], clientId, fromDate) ==> rows[i].tx in r
    ensures multiset(r) == multiset(Selected(rows, clientId, fromDate))
    ensures forall i :: 0 <= i < |rows| ==> multiset(r)[rows[i].tx] == WindowCount(rows, clientId, fromDate, rows[i].tx)
  {
    var selected := Selected(rows, clientId, fromDate);
    var r := SortNewestFirst(selected);
    assert forall t :: t in r ==> t in selected by {
      forall t | t in r ensures t in selected {
        assert t in multiset(r);
      }
    }
    assert forall t :: t in selected ==> t in r by {
      forall t | t in selected ensures t in r {
        assert t in multiset(selected);
      }
    }
    assert forall i :: 0 <= i < |rows| ==>
      multiset(r)[rows[i].tx] == WindowCount(rows, clientId, fromDate, rows[i].tx) by {
      forall i | 0 <= i < |rows|
        ensures multiset(r)[rows[i].tx] == WindowCount(rows, clientId, fromDate, rows[i].tx)
      {
        SelectedCount(rows, clientId, fromDate, rows[i].tx);
      }
    }
    r
  }
}

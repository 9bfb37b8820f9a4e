/**
 * The entities: Client and Transaction (persistent records whose lists and
 * back-references are updated in place) and ChatMessage (a value).
 */
module Model {

  /** A client's database id (Java Long). */
  type ClientId = int

  /** A calendar date (LocalDate), as a day number. */
  type Date = int

  /** A point in time (LocalDateTime), as an ordered instant. */
  type Instant = int

  /** One turn of a conversation; role is "user", "assistant" or "system". */
  datatype ChatMessage = ChatMessage(role: string, message: string, timestamp: Instant)

  /** A single dated, categorised spend; amount is an exact decimal and may be negative. */
  class Transaction {
    const id: int
    var client: Client?
    const category: string
    const description: string
    const amount: real
    const date: Date

    constructor (id: int, client: Client?, category: string, description: string, amount: real, date: Date)
      ensures this.id == id && this.client == client && this.category == category
      ensures this.description == description && this.amount == amount && this.date == date
    {
      this.id := id;
      this.client := client;
      this.category := category;
      this.description := description;
      this.amount := amount;
      this.date := date;
    }
  }

  /** A person whose spending is tracked; owns the list of their transactions. */
  class Client {
    const id: ClientId
    const name: string
    const email: string
    const joinedDate: Date
    var transactions: seq<Transaction>

    /** A newly built client owns no transactions. */
    constructor (id: ClientId, name: string, email: string, joinedDate: Date)
      ensures this.id == id && this.name == name && this.email == email && this.joinedDate == joinedDate
      ensures transactions == []
    {
      this.id := id;
      this.name := name;
      this.email := email;
      this.joinedDate := joinedDate;
      transactions := [];
    }

    /** Appends t to the list and makes this client its owner. */
    method AddTransaction(t: Transaction)
      modifies this, t
      ensures transactions == old(transactions) + [t]
      ensures t.client == this
    {
      transactions := transactions + [t];
      t.client := this;
    }

    /** Drops the first occurrence of t from the list, if any, and clears its owner
        whether or not it was in the list. */
    method RemoveTransaction(t: Transaction)
      modifies this, t
      ensures transactions == RemoveFirst(old(transactions), t)
      ensures t.client == null
    {
      transactions := RemoveFirst(transactions, t);
      t.client := null;
    }
  }

  /** List.remove(Object): the list without the first element equal to x. */
  function RemoveFirst<T(==)>(s: seq<T>, x: T): (r: seq<T>)
    ensures x !in s ==> r == s
    ensures |r| == if x in s then |s| - 1 else |s|
    ensures multiset(r) == multiset(s) - multiset{x}
  {
    if |s| == 0 then []
    else
      assert s == [s[0]] + s[1..];
      if s[0] == x then s[1..] else [s[0]] + RemoveFirst(s[1..], x)
  }

  /** The position of the first element equal to x. */
  function FirstIndexOf<T(==)>(s: seq<T>, x: T): (i: nat)
    requires x in s
    ensures i < |s| && s[i] == x && x !in s[..i]
  {
    if s[0] == x then 0
    else
      var j := FirstIndexOf(s[1..], x);
      assert s[..j + 1] == [s[0]] + s[1..][..j];
      j + 1
  }

  /** A non-empty list is its front followed by its last element. */
  lemma SplitLast<T>(s: seq<T>)
    requires |s| > 0
    ensures s == s[..|s| - 1] + [s[|s| - 1]]
  {
  }

  /** A non-empty list is its first element followed by the rest. */
  lemma SplitFirst<T>(s: seq<T>)
    requires |s| > 0
    ensures s == [s[0]] + s[1..]
  {
  }

  /** Cutting position i out of a list, seen from its last element. */
  lemma CutThenSplitLast<T>(s: seq<T>, i: int)
    requires 0 <= i < |s|
    ensures i == |s| - 1 ==> s[..i] + s[i + 1..] == s[..|s| - 1]
    ensures i < |s| - 1 ==>
      var cut, init := s[..i] + s[i + 1..], s[..|s| - 1];
      && |cut| == |s| - 1
      && cut[..|cut| - 1] == init[..i] + init[i + 1..]
      && cut[|cut| - 1] == s[|s| - 1]
  {
    if i < |s| - 1 {
      var cut, init := s[..i] + s[i + 1..], s[..|s| - 1];
      assert cut[..|cut| - 1] == init[..i] + init[i + 1..];
    }
  }

  /** A non-empty list counts its last element once more than the rest of it. */
  lemma MultisetOfSnoc<T>(s: seq<T>)
    requires |s| > 0
    ensures multiset(s) == multiset(s[..|s| - 1]) + multiset{s[|s| - 1]}
  {
    SplitLast(s);
  }

  lemma SlicesAfterHead<T>(s: seq<T>, j: nat)
    requires j + 1 < |s|
    ensures s[..j + 1] + s[j + 2..] == [s[0]] + (s[1..][..j] + s[1..][j + 1..])
  {
  }

  /** Removal cuts out exactly the first occurrence and keeps the rest in order. */
  lemma {:induction false} RemoveFirstCutsFirstOccurrence<T>(s: seq<T>, x: T)
    requires x in s
    ensures RemoveFirst(s, x) == s[..FirstIndexOf(s, x)] + s[FirstIndexOf(s, x) + 1..]
  {
    if s[0] == x {
      assert s[..0] + s[1..] == s[1..];
    } else {
      assert x in s[1..];
      var j := FirstIndexOf(s[1..], x);
      assert FirstIndexOf(s, x) == j + 1;
      assert RemoveFirst(s, x) == [s[0]] + RemoveFirst(s[1..], x);
      RemoveFirstCutsFirstOccurrence(s[1..], x);
      SlicesAfterHead(s, j);
    }
  }

  /** Adding a transaction the list did not hold and then removing it restores the list. */
  lemma AddThenRemoveRestores<T>(s: seq<T>, x: T)
    requires x !in s
    ensures RemoveFirst(s + [x], x) == s
  {
    RemoveFirstCutsFirstOccurrence(s + [x], x);
    assert (s + [x])[..|s|] == s;
  }
}

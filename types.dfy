/** The records the finance tracker stores, and the small wrappers every screen uses. */
module Types {

  datatype Option<T> = None | Some(value: T)

  /** The outcome of a backend (SDK) call: the returned value, or the error it reported. */
  datatype Result<T, E> = Ok(value: T) | Err(error: E)

  /** A toast notification shown to the user (or none). */
  datatype Toast = NoToast | SuccessToast(message: string) | ErrorToast(message: string)

  /** The `type` column of transactions and categories: 'income' | 'expense'. */
  datatype TxType = Income | Expense

  function TypeName(t: TxType): (s: string)
    ensures s == "income" || s == "expense"
    ensures (s == "income") <==> t == Income
  {
    match t
    case Income => "income"
    case Expense => "expense"
  }

  /** A row of the `transactions` table. */
  datatype Transaction = Transaction(
    id: string,
    amount: real,
    description: string,
    categoryId: string,
    userId: string,
    transactionDate: string,
    txType: TxType,
    createdAt: string,
    notes: Option<string>,
    attachmentUrl: Option<string>,
    updatedAt: Option<string>)

  /** A row of the `categories` table. */
  datatype Category = Category(
    id: string,
    name: string,
    catType: TxType,
    userId: string,
    icon: Option<string>,
    color: Option<string>,
    createdAt: string)

  /** `categories.filter(c => c.type === t)`. */
  function OfType(cats: seq<Category>, t: TxType): (r: seq<Category>)
    ensures forall c :: c in r ==> c in cats && c.catType == t
    ensures forall c :: c in cats && c.catType == t ==> c in r
    ensures |r| <= |cats|
  {
    if cats == [] then []
    else (if cats[0].catType == t then [cats[0]] else []) + OfType(cats[1..], t)
  }

  /** `list.map(t => t.id === id ? row : t)`. */
  function ReplaceById(s: seq<Transaction>, id: string, row: Transaction): (r: seq<Transaction>)
    ensures |r| == |s|
    ensures forall i :: 0 <= i < |s| && s[i].id == id ==> r[i] == row
    ensures forall i :: 0 <= i < |s| && s[i].id != id ==> r[i] == s[i]
  {
    if s == [] then []
    else [if s[0].id == id then row else s[0]] + ReplaceById(s[1..], id, row)
  }

  /** `list.filter(t => t.id !== id)`. */
  function RemoveById(s: seq<Transaction>, id: string): (r: seq<Transaction>)
    ensures forall x :: x in r ==> x in s && x.id != id
    ensures forall x: Transaction :: x.id != id ==> multiset(r)[x] == multiset(s)[x]
    ensures |r| <= |s|
  {
    WithoutFacts(s, id);
    Without(s, id)
  }

  /** The recursion behind `RemoveById`. */
  function Without(s: seq<Transaction>, id: string): seq<Transaction>
  {
    if s == [] then [] else (if s[0].id == id then [] else [s[0]]) + Without(s[1..], id)
  }

  lemma {:induction false} WithoutFacts(s: seq<Transaction>, id: string)
    ensures forall x :: x in Without(s, id) ==> x in s && x.id != id
    ensures forall x: Transaction :: x.id != id ==> multiset(Without(s, id))[x] == multiset(s)[x]
    ensures |Without(s, id)| <= |s|
  {
    if s != [] {
      WithoutFacts(s[1..], id);
      assert s == [s[0]] + s[1..];
      assert multiset(s) == multiset{s[0]} + multiset(s[1..]);
    }
  }

  /** Removing distributes over concatenation, so the survivors keep their relative order. */
  lemma {:induction false} RemoveByIdAppend(a: seq<Transaction>, b: seq<Transaction>, id: string)
    ensures RemoveById(a + b, id) == RemoveById(a, id) + RemoveById(b, id)
  {
    WithoutAppend(a, b, id);
  }

  lemma {:induction false} WithoutAppend(a: seq<Transaction>, b: seq<Transaction>, id: string)
    ensures Without(a + b, id) == Without(a, id) + Without(b, id)
  {
    if a == [] {
      assert a + b == b;
    } else {
      assert (a + b)[0] == a[0];
      assert (a + b)[1..] == a[1..] + b;
      WithoutAppend(a[1..], b, id);
    }
  }

  /** An element without the id is kept; one with the id is dropped. */
  lemma RemoveByIdSingleton(x: Transaction, id: string)
    ensures RemoveById([x], id) == if x.id == id then [] else [x]
  {
    assert [x][1..] == [];
  }

  /** When no element has the id, nothing is removed. */
  lemma {:induction false} RemoveByIdAbsent(s: seq<Transaction>, id: string)
    requires forall i :: 0 <= i < |s| ==> s[i].id != id
    ensures RemoveById(s, id) == s
  {
    WithoutAbsent(s, id);
  }

  lemma {:induction false} WithoutAbsent(s: seq<Transaction>, id: string)
    requires forall i :: 0 <= i < |s| ==> s[i].id != id
    ensures Without(s, id) == s
  {
    if s != [] {
      WithoutAbsent(s[1..], id);
    }
  }
}

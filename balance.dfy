/**
 * `TransactionsRepository.getBalance`: the stored transactions are folded
 * into an income sum and an outcome sum; a transaction of any other type
 * is ignored; the total is income minus outcome. Amounts are fixed-point
 * integers (e.g. cents).
 */
module Balance {
  import opened Entities

  datatype Balance = Balance(income: int, outcome: int, total: int)

  /** The sum of the values of the transactions of type `kind`; the others contribute nothing. */
  function SumOf(txs: seq<Transaction<int>>, kind: string): (s: int)
    ensures (forall i :: 0 <= i < |txs| ==> txs[i].kind != kind) ==> s == 0
    ensures (forall i :: 0 <= i < |txs| ==> txs[i].value >= 0) ==> s >= 0
  {
    if txs == [] then 0
    else
      var t := txs[|txs| - 1];
      SumOf(txs[..|txs| - 1], kind) + (if t.kind == kind then t.value else 0)
  }

  function Income(txs: seq<Transaction<int>>): int
  {
    SumOf(txs, "income")
  }

  function Outcome(txs: seq<Transaction<int>>): int
  {
    SumOf(txs, "outcome")
  }

  /**
   * The `reduce` over the transactions, starting from zero sums and adding
   * each value to the sum its type selects, then `total = income - outcome`.
   */
  method GetBalance(txs: seq<Transaction<int>>) returns (b: Balance)
    ensures b.income == Income(txs) && b.outcome == Outcome(txs)
    ensures b.total == b.income - b.outcome
    ensures txs == [] ==> b == Balance(0, 0, 0)
  {
    var income, outcome := 0, 0;
    for i := 0 to |txs|
      invariant income == Income(txs[..i])
      invariant outcome == Outcome(txs[..i])
    {
      assert txs[..i + 1][..i] == txs[..i];
      var t := txs[i];
      if t.kind == "income" {
        income := income + t.value;
      } else if t.kind == "outcome" {
        outcome := outcome + t.value;
      }
    }
    assert txs[..|txs|] == txs;
    b := Balance(income, outcome, income - outcome);
  }

  /** The sums split over a concatenation. */
  lemma {:induction false} SumOfAppend(a: seq<Transaction<int>>, b: seq<Transaction<int>>, kind: string)
    ensures SumOf(a + b, kind) == SumOf(a, kind) + SumOf(b, kind)
  {
    if b == [] {
      assert a + b == a;
    } else {
      var b' := b[..|b| - 1];
      assert (a + b)[..|a + b| - 1] == a + b';
      SumOfAppend(a, b', kind);
    }
  }

  /**
   * One more transaction, wherever it stands, changes at most one of the
   * sums, by exactly its value: income if its type is "income", outcome if
   * it is "outcome", neither otherwise.
   */
  lemma InsertOne(a: seq<Transaction<int>>, t: Transaction<int>, b: seq<Transaction<int>>)
    ensures t.kind == "income" ==> Income(a + [t] + b) == Income(a + b) + t.value && Outcome(a + [t] + b) == Outcome(a + b)
    ensures t.kind == "outcome" ==> Outcome(a + [t] + b) == Outcome(a + b) + t.value && Income(a + [t] + b) == Income(a + b)
    ensures t.kind != "income" && t.kind != "outcome" ==> Income(a + [t] + b) == Income(a + b) && Outcome(a + [t] + b) == Outcome(a + b)
  {
    assert [t][..0] == [];
    forall kind | kind == "income" || kind == "outcome"
      ensures SumOf(a + [t] + b, kind) == SumOf(a + b, kind) + (if t.kind == kind then t.value else 0)
    {
      SumOfAppend(a + [t], b, kind);
      SumOfAppend(a, [t], kind);
      SumOfAppend(a, b, kind);
    }
  }

  /** Taking out the transaction at `j` takes its value out of the sum its type selects. */
  lemma SumOfRemove(b: seq<Transaction<int>>, j: nat, kind: string)
    requires j < |b|
    ensures SumOf(b, kind) == SumOf(b[..j] + b[j + 1..], kind) + (if b[j].kind == kind then b[j].value else 0)
  {
    var x := b[j];
    assert b == b[..j] + [x] + b[j + 1..];
    SumOfAppend(b[..j] + [x], b[j + 1..], kind);
    SumOfAppend(b[..j], [x], kind);
    SumOfAppend(b[..j], b[j + 1..], kind);
    assert [x][..0] == [];
  }

  /** Taking out the element at `j` takes one copy of it out of the multiset. */
  lemma MultisetRemove(b: seq<Transaction<int>>, j: nat)
    requires j < |b|
    ensures multiset(b[..j] + b[j + 1..]) == multiset(b) - multiset{b[j]}
  {
    assert b == b[..j] + [b[j]] + b[j + 1..];
  }

  /** The order of the transactions does not matter: a permutation has the same sums. */
  lemma {:induction false} SumOfPermutation(a: seq<Transaction<int>>, b: seq<Transaction<int>>, kind: string)
    requires multiset(a) == multiset(b)
    ensures SumOf(a, kind) == SumOf(b, kind)
    decreases |a|
  {
    if a == [] {
      assert |b| == |multiset(b)| == 0;
    } else {
      var x := a[|a| - 1];
      var a' := a[..|a| - 1];
      assert a == a' + [x];
      assert multiset(a') == multiset(a) - multiset{x};
      assert x in multiset(b);
      assert x in b;
      var j :| 0 <= j < |b| && b[j] == x;
      MultisetRemove(b, j);
      SumOfRemove(b, j, kind);
      SumOfPermutation(a', b[..j] + b[j + 1..], kind);
    }
  }

  /** Permuting the transactions leaves income, outcome and so the total unchanged. */
  lemma BalancePermutationInvariant(a: seq<Transaction<int>>, b: seq<Transaction<int>>)
    requires multiset(a) == multiset(b)
    ensures Income(a) == Income(b) && Outcome(a) == Outcome(b)
    ensures Income(a) - Outcome(a) == Income(b) - Outcome(b)
  {
    SumOfPermutation(a, b, "income");
    SumOfPermutation(a, b, "outcome");
  }

  /** Income 100, outcome 40 and income 5 give income 105, outcome 40 and total 65. */
  lemma BalanceExample(c: Option<Category>)
    ensures var txs := [Transaction("Salary", "income", 100, c), Transaction("Rent", "outcome", 40, c),
                        Transaction("Gift", "income", 5, c)];
      Income(txs) == 105 && Outcome(txs) == 40 && Income(txs) - Outcome(txs) == 65
  {
    var one := [Transaction("Salary", "income", 100, c)];
    var two := one + [Transaction("Rent", "outcome", 40, c)];
    var txs := two + [Transaction("Gift", "income", 5, c)];
    assert one[..0] == [];
    assert Income([]) == 0 && Outcome([]) == 0;
    assert two[..1] == one;
    assert txs[..2] == two;
    assert Income(one) == 100 && Outcome(one) == 0;
    assert Income(two) == 100 && Outcome(two) == 40;
    assert txs == [Transaction("Salary", "income", 100, c), Transaction("Rent", "outcome", 40, c),
                   Transaction("Gift", "income", 5, c)];
  }
}

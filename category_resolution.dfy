/**
 * Reconciling the category titles of one import batch with the stored
 * categories: de-duplication of the collected titles, the batched lookup
 * of those already stored, the titles still to be created, and the
 * per-record lookup that binds each transaction to its category.
 */
module CategoryResolution {
  import opened Entities
  import opened CsvRows

  /** `Array.prototype.indexOf`: the position of the first `x` in `s`, or -1. */
  function IndexOf(s: seq<string>, x: string): (i: int)
    ensures -1 <= i < |s|
    ensures i == -1 <==> x !in s
    ensures i >= 0 ==> s[i] == x && x !in s[..i]
  {
    if s == [] then -1
    else if s[0] == x then 0
    else
      var j := IndexOf(s[1..], x);
      if j == -1 then -1
      else
        assert s[..j + 1] == [s[0]] + s[1..][..j];
        j + 1
  }

  /** A title that occurs in `s[..m]` is first found before `m`. */
  lemma IndexOfBefore(s: seq<string>, x: string, m: nat)
    requires m <= |s| && x in s[..m]
    ensures 0 <= IndexOf(s, x) < m
  {
    var k :| 0 <= k < m && s[..m][k] == x;
    assert s[k] == x;
  }

  /**
   * The entries of `s[..n]` that the source's
   * `filter((value, index, self) => self.indexOf(value) === index)` keeps:
   * no title twice, the same titles as `s[..n]`, in order of first occurrence.
   */
  function FirstOccurrences(s: seq<string>, n: nat): (r: seq<string>)
    requires n <= |s|
    ensures NoDuplicates(r)
    ensures forall x :: x in r <==> x in s[..n]
    ensures forall i, j :: 0 <= i < j < |r| ==> IndexOf(s, r[i]) < IndexOf(s, r[j])
    ensures forall i :: 0 <= i < |r| ==> IndexOf(s, r[i]) < n
  {
    if n == 0 then []
    else
      var prev := FirstOccurrences(s, n - 1);
      var x := s[n - 1];
      assert s[..n] == s[..n - 1] + [x];
      if IndexOf(s, x) == n - 1 then
        assert x !in s[..n - 1];
        assert x !in prev;
        prev + [x]
      else
        prev
  }

  /** The collected titles with duplicates removed, first occurrence kept. */
  function Dedup(titles: seq<string>): (r: seq<string>)
    ensures NoDuplicates(r)
    ensures forall x :: x in r <==> x in titles
    ensures forall i, j :: 0 <= i < j < |r| ==> IndexOf(titles, r[i]) < IndexOf(titles, r[j])
  {
    assert titles[..|titles|] == titles;
    FirstOccurrences(titles, |titles|)
  }

  /** Where the example batch first mentions each of its titles. */
  lemma ExampleFirstPositions(s: seq<string>)
    requires s == ["Food", "Food", "Transport", "Food"]
    ensures IndexOf(s, "Food") == 0 && IndexOf(s, "Transport") == 2
  {
    assert IndexOf(s[1..], "Transport") == 1 by {
      assert s[1..][1..][0] == "Transport";
    }
  }

  /** The example batch "Food", "Food", "Transport", "Food" asks for one "Food" and one "Transport". */
  lemma DedupExample()
    ensures Dedup(["Food", "Food", "Transport", "Food"]) == ["Food", "Transport"]
  {
    var s := ["Food", "Food", "Transport", "Food"];
    ExampleFirstPositions(s);
    FirstOccurrencesStep(s, 1);
    FirstOccurrencesStep(s, 2);
    FirstOccurrencesStep(s, 3);
    FirstOccurrencesStep(s, 4);
    assert FirstOccurrences(s, 0) == [];
  }

  /** One step of the filter: the `n`-th title is kept exactly when it is its own first occurrence. */
  lemma FirstOccurrencesStep(s: seq<string>, n: nat)
    requires 0 < n <= |s|
    ensures FirstOccurrences(s, n) ==
      FirstOccurrences(s, n - 1) + (if IndexOf(s, s[n - 1]) == n - 1 then [s[n - 1]] else [])
  {
  }

  /**
   * The batched lookup `find({ where: { title: In(titles) } })`: exactly the
   * stored categories whose title is requested, in store order.
   */
  function FindByTitles(stored: seq<Category>, titles: seq<string>): (r: seq<Category>)
    ensures |r| <= |stored|
    ensures forall c :: c in r <==> c in stored && c.title in titles
  {
    if stored == [] then []
    else
      var c := stored[|stored| - 1];
      var init := stored[..|stored| - 1];
      assert stored == init + [c];
      FindByTitles(init, titles) + (if c.title in titles then [c] else [])
  }

  /**
   * The requested titles that no found category carries (the source's
   * `filter` over `existing.map(c => c.title).includes`): each requested
   * title is either new or carried by a found category, never both, and
   * a duplicate-free request gives a duplicate-free result.
   */
  function NewTitles(titles: seq<string>, existing: seq<Category>): (r: seq<string>)
    ensures forall t :: t in r <==> t in titles && t !in Titles(existing)
    ensures NoDuplicates(titles) ==> NoDuplicates(r)
  {
    if titles == [] then []
    else
      var t := titles[|titles| - 1];
      var init := titles[..|titles| - 1];
      assert titles == init + [t];
      var prev := NewTitles(init, existing);
      assert NoDuplicates(titles) ==> t !in init;
      prev + (if t !in Titles(existing) then [t] else [])
  }

  /** `allCategories.find(c => c.title === title)`: the first category carrying `title`, if any. */
  function FindCategory(all: seq<Category>, title: string): (r: Option<Category>)
    ensures r.Some? <==> title in Titles(all)
    ensures r.Some? ==> r.value in all && r.value.title == title
    ensures r.Some? ==> r.value == all[IndexOf(Titles(all), title)]
  {
    if all == [] then None
    else if all[0].title == title then Some(all[0])
    else
      var r := FindCategory(all[1..], title);
      assert Titles(all) == [all[0].title] + Titles(all[1..]);
      assert Titles(all)[1..] == Titles(all[1..]);
      r
  }

  /**
   * The transaction candidates, one per kept record and in record order:
   * title, type and value copied unchanged, the category the first one whose
   * title is the record's category, present exactly when such a category exists.
   */
  function BuildTransactions(kept: seq<ParsedRow>, all: seq<Category>): (txs: seq<Transaction<string>>)
    ensures |txs| == |kept|
    ensures forall i :: 0 <= i < |kept| ==>
      txs[i].title == kept[i].title && txs[i].kind == kept[i].kind && txs[i].value == kept[i].value
    ensures forall i :: 0 <= i < |kept| ==> (txs[i].category.Some? <==> kept[i].category in Titles(all))
    ensures forall i :: 0 <= i < |kept| && txs[i].category.Some? ==>
      && txs[i].category.value in all && txs[i].category.value.title == kept[i].category
      && txs[i].category.value == all[IndexOf(Titles(all), kept[i].category)]
  {
    seq(|kept|, i requires 0 <= i < |kept| =>
      Transaction(kept[i].title, kept[i].kind, kept[i].value, FindCategory(all, kept[i].category)))
  }

  /** The titles a batch whose collected titles are `collected` asks the store to create. */
  function TitlesToCreate(stored: seq<Category>, collected: seq<string>): seq<string>
  {
    var requested := Dedup(collected);
    NewTitles(requested, FindByTitles(stored, requested))
  }

  /**
   * A title is created exactly when the batch collected it and no stored
   * category carries it: nothing stored is created again, nothing missing
   * is left out.
   */
  lemma CreatesExactlyMissing(stored: seq<Category>, collected: seq<string>)
    ensures forall t :: t in TitlesToCreate(stored, collected) <==> t in collected && t !in Titles(stored)
  {
  }

  /**
   * The titles created do not depend on the order or the repetition of the
   * collected titles, only on which titles were collected.
   */
  lemma CreatedIndependentOfOrder(stored: seq<Category>, a: seq<string>, b: seq<string>)
    requires forall t :: t in a <==> t in b
    ensures forall t :: t in TitlesToCreate(stored, a) <==> t in TitlesToCreate(stored, b)
  {
    CreatesExactlyMissing(stored, a);
    CreatesExactlyMissing(stored, b);
  }

  /** Importing titles that are all stored already creates nothing. */
  lemma ReimportCreatesNothing(stored: seq<Category>, collected: seq<string>)
    requires forall t :: t in collected ==> t in Titles(stored)
    ensures TitlesToCreate(stored, collected) == []
  {
    var requested := Dedup(collected);
    var existing := FindByTitles(stored, requested);
    forall t | t in requested ensures t in Titles(existing) {
      var k :| 0 <= k < |stored| && Titles(stored)[k] == t;
      assert stored[k] in existing;
    }
    NothingNew(requested, existing);
  }

  lemma {:induction false} NothingNew(titles: seq<string>, existing: seq<Category>)
    requires forall t :: t in titles ==> t in Titles(existing)
    ensures NewTitles(titles, existing) == []
  {
    if titles != [] {
      NothingNew(titles[..|titles| - 1], existing);
    }
  }

  lemma TitlesAppend(a: seq<Category>, b: seq<Category>)
    ensures Titles(a + b) == Titles(a) + Titles(b)
  {
  }

  /** A batch never asks for the same title twice. */
  lemma CreatedOnce(stored: seq<Category>, collected: seq<string>)
    ensures NoDuplicates(TitlesToCreate(stored, collected))
  {
  }

  /**
   * The lookup never fails: with the created categories ahead of the found
   * ones, every collected title is carried by one of them.
   */
  lemma EveryTitleResolves(stored: seq<Category>, collected: seq<string>, created: seq<Category>)
    requires Titles(created) == TitlesToCreate(stored, collected)
    ensures forall t :: t in collected ==> t in Titles(created + FindByTitles(stored, Dedup(collected)))
  {
    var existing := FindByTitles(stored, Dedup(collected));
    var all := created + existing;
    assert Titles(all) == Titles(created) + Titles(existing) by {
      TitlesAppend(created, existing);
    }
    forall t | t in collected ensures t in Titles(created) + Titles(existing) {
      assert t in Dedup(collected);
    }
  }

  /**
   * No duplicate categories are ever produced: a store without two
   * categories of the same title keeps that property once the batch's new
   * categories are appended.
   */
  lemma StillUnique(stored: seq<Category>, collected: seq<string>, created: seq<Category>)
    requires NoDuplicates(Titles(stored))
    requires Titles(created) == TitlesToCreate(stored, collected)
    ensures NoDuplicates(Titles(stored + created))
  {
    CreatesExactlyMissing(stored, collected);
    CreatedOnce(stored, collected);
    TitlesAppend(stored, created);
    var ts := Titles(stored + created);
    forall i, j | 0 <= i < j < |ts| ensures ts[i] != ts[j] {
      if i < |stored| && j >= |stored| {
        assert ts[i] in Titles(stored);
        assert ts[j] == Titles(created)[j - |stored|];
      }
    }
  }
}

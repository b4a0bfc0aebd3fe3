/**
 * The records the import pipeline and the balance work on: a stored
 * category, a transaction bound to a category, and the small sequence
 * vocabulary (titles of a category list, duplicate freedom) they share.
 */
module Entities {

  datatype Option<T> = None | Some(value: T)

  /** A persisted category: an identity assigned by the store and a title. */
  datatype Category = Category(id: nat, title: string)

  /**
   * A transaction. Its `value` is the CSV text while it is being imported
   * (`Transaction<string>`) and a fixed-point amount, e.g. cents, once read
   * back for the balance (`Transaction<int>`). Its category is what the
   * title lookup found, which may in principle be nothing. `kind` is the
   * source's `type` field (a reserved word in Dafny).
   */
  datatype Transaction<V> = Transaction(title: string, kind: string, value: V, category: Option<Category>)

  /** The titles of a category list, in order. */
  function Titles(cats: seq<Category>): (ts: seq<string>)
    ensures |ts| == |cats|
    ensures forall i :: 0 <= i < |cats| ==> ts[i] == cats[i].title
  {
    seq(|cats|, i requires 0 <= i < |cats| => cats[i].title)
  }

  predicate NoDuplicates<T(==)>(s: seq<T>)
  {
    forall i, j :: 0 <= i < j < |s| ==> s[i] != s[j]
  }

  /** A member's title is among the titles. */
  lemma TitleOfMember(cats: seq<Category>, c: Category)
    requires c in cats
    ensures c.title in Titles(cats)
  {
    var k :| 0 <= k < |cats| && cats[k] == c;
    assert Titles(cats)[k] == c.title;
  }
}

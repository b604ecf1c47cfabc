/**
 * The record tree that every save passes through (GameSaveEntry): a type tag,
 * an optional directive saying how to apply the value to its owner, and an
 * ordered data list whose elements are text leaves or nested records.
 */
module Tree {
  import opened Wrappers

  /** One element of a record's data list: a line of text, or a nested record. */
  datatype Item = Leaf(text: string) | Node(entry: Entry)

  /**
   * A GameSaveEntry as a value: objType becomes `tag`, loadFn becomes
   * `directive` (None for a fresh entry), dataList becomes `children`.
   */
  datatype Entry = Entry(tag: string, directive: Option<string>, children: seq<Item>)

  /** The tag a fresh GameSaveEntry carries: the name of its own class. */
  const EntryClassName := "GameSaveEntry"

  /** A termination measure: the number of leaves and records in a data list. */
  function ItemsSize(items: seq<Item>): nat
    decreases items
  {
    if items == [] then 0 else ItemsSize(items[..|items| - 1]) + ItemSize(items[|items| - 1])
  }

  function ItemSize(item: Item): (n: nat)
    decreases item
    ensures n >= 1
  {
    match item
    case Leaf(_) => 1
    case Node(e) => 1 + ItemsSize(e.children)
  }

  /** Every element of a data list, and everything before it, is smaller than the whole list. */
  lemma {:induction false} ItemsSizeSplit(items: seq<Item>, i: nat)
    requires i < |items|
    ensures ItemsSize(items[..i]) + ItemSize(items[i]) <= ItemsSize(items)
    decreases |items|
  {
    var n := |items|;
    assert items[..n][..i] == items[..i];
    if i < n - 1 {
      ItemsSizeSplit(items[..n - 1], i);
      assert items[..n - 1][..i] == items[..i];
    } else {
      assert items[..i] == items[..n - 1];
    }
  }

  /** The size of a data list split at its first element. */
  lemma {:induction false} ItemsSizeCons(items: seq<Item>)
    requires |items| > 0
    ensures ItemsSize(items) == ItemSize(items[0]) + ItemsSize(items[1..])
    decreases |items|
  {
    var n := |items|;
    if n > 1 {
      ItemsSizeCons(items[..n - 1]);
      assert items[..n - 1][1..] == items[1..][..n - 2];
      assert items[1..][n - 2] == items[n - 1];
    } else {
      assert items[1..] == [];
    }
  }

  /**
   * Where Python's list.insert(index, x) puts x in a list of length n: a negative
   * index counts from the end, and an index beyond either end is clamped to it.
   */
  function InsertPosition(n: nat, index: int): (p: nat)
    ensures p <= n
    ensures 0 <= index <= n ==> p == index
    ensures -(n as int) <= index < 0 ==> p == n + index
    ensures index > n ==> p == n
    ensures index < -(n as int) ==> p == 0
  {
    if index < 0 then (if n + index < 0 then 0 else n + index)
    else if index > n then n
    else index
  }

  /** list.insert(index, x), as a new sequence. */
  function InsertAt<T>(xs: seq<T>, index: int, x: T): seq<T> {
    var p := InsertPosition(|xs|, index);
    xs[..p] + [x] + xs[p..]
  }

  /**
   * Inserting adds exactly one element, at the clamped position, and taking
   * it out again gives back the original list in its original order.
   */
  lemma InsertAtAddsOne<T>(xs: seq<T>, index: int, x: T)
    ensures var p := InsertPosition(|xs|, index);
      var r := InsertAt(xs, index, x);
      |r| == |xs| + 1 && r[p] == x && r[..p] + r[p + 1..] == xs
  {
    var p := InsertPosition(|xs|, index);
    var r := InsertAt(xs, index, x);
    assert r[..p] == xs[..p];
    assert r[p + 1..] == xs[p..];
    assert xs[..p] + xs[p..] == xs;
  }
}

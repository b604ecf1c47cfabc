/**
 * GameSaveEntry.addItem: turning a value into a record. `Encode` is the record
 * addItem builds for one value; the class GameSaveEntry does it in place, the way
 * the source does, and is proved to append (or insert) exactly that record.
 */
module Encoder {
  import opened Wrappers
  import opened Text
  import opened Tree
  import opened Values
  import opened Registry

  /**
   * The record addItem(loadFn, v) builds for v, before it is placed in the owner's
   * data list. The branches follow the source's dispatch order: dict, other
   * iterables, callables, GameSaveEntry, str, bytes, registered types, str().
   */
  function Encode(cfg: Config, loadFn: Option<string>, v: Value): (e: Entry)
    requires SaveShrinks(cfg)
    decreases Size(v), 0
    ensures e.directive == loadFn
    ensures e.tag == if v.VEntry? then v.entry.tag else TypeName(v)
    ensures v.VList? || v.VTuple? || v.VIterable? ==> |e.children| == |v.elems|
    ensures v.VDict? ==> |e.children| == |v.pairs|
    ensures FallsBack(v) || v.VStr? || v.VBytes? || v.VCallable? ==> |e.children| == 1
    ensures v.VEntry? ==> e.children == v.entry.children
    ensures v.VCallable? ==> e.children == [Leaf(v.name)]
    ensures FallsBack(v) && FindSaveType(cfg, TypeName(v)).None? ==> e.children == [Leaf(StrOf(v))]
  {
    match v
    case VDict(ps) => Entry(TypeName(v), loadFn, EncodePairs(cfg, ps))
    case VList(es) => Entry(TypeName(v), loadFn, EncodeElems(cfg, es))
    case VTuple(es) => Entry(TypeName(v), loadFn, EncodeElems(cfg, es))
    case VIterable(_, es, _) => Entry(TypeName(v), loadFn, EncodeElems(cfg, es))
    case VCallable(_, name) => Entry(TypeName(v), loadFn, [Leaf(name)])
    case VEntry(inner) => Entry(inner.tag, loadFn, inner.children)
    case VStr(s) => Entry(TypeName(v), loadFn, [Leaf(UnicodeEscape(s))])
    case VBytes(b) => Entry(TypeName(v), loadFn, [Leaf(cfg.host.escapeBytes(b))])
    case _ =>
      match FindSaveType(cfg, TypeName(v))
      case Some(i) =>
        var saved := cfg.types[i].1.saveFn(v);
        Entry(TypeName(v), loadFn, [Node(Encode(cfg, Some(""), saved))])
      case None => Entry(TypeName(v), loadFn, [Leaf(StrOf(v))])
  }

  /** The children of a list or tuple: one record per element, with an empty directive. */
  function EncodeElems(cfg: Config, vs: seq<Value>): (items: seq<Item>)
    requires SaveShrinks(cfg)
    decreases SeqSize(vs), 1
    ensures |items| == |vs|
  {
    if vs == [] then []
    else
      var n := |vs| - 1;
      EncodeElems(cfg, vs[..n]) + [Node(Encode(cfg, Some(""), vs[n]))]
  }

  /** The children of a dict: one (key, value) tuple record per item, with an empty directive. */
  function EncodePairs(cfg: Config, ps: seq<(Value, Value)>): (items: seq<Item>)
    requires SaveShrinks(cfg)
    decreases PairsSize(ps), 1
    ensures |items| == |ps|
  {
    if ps == [] then []
    else
      var n := |ps| - 1;
      PairTupleSize(ps[n].0, ps[n].1);
      assert PairsSize(ps) == PairsSize(ps[..n]) + PairSize(ps[n]);
      EncodePairs(cfg, ps[..n]) + [Node(Encode(cfg, Some(""), VTuple([ps[n].0, ps[n].1])))]
  }

  /** Element i of a list or tuple is the i-th child: order and length are kept. */
  lemma {:induction false} EncodeElemsAt(cfg: Config, vs: seq<Value>, i: nat)
    requires SaveShrinks(cfg) && i < |vs|
    ensures EncodeElems(cfg, vs)[i] == Node(Encode(cfg, Some(""), vs[i]))
    decreases |vs|
  {
    var n := |vs| - 1;
    if i < n {
      EncodeElemsAt(cfg, vs[..n], i);
    }
  }

  /** Item i of a dict is the i-th child, as the tuple (key, value). */
  lemma {:induction false} EncodePairsAt(cfg: Config, ps: seq<(Value, Value)>, i: nat)
    requires SaveShrinks(cfg) && i < |ps|
    ensures EncodePairs(cfg, ps)[i] == Node(Encode(cfg, Some(""), VTuple([ps[i].0, ps[i].1])))
    decreases |ps|
  {
    var n := |ps| - 1;
    if i < n {
      EncodePairsAt(cfg, ps[..n], i);
    }
  }

  /**
   * A str is written as one leaf of its unicode_escape text, which holds no line
   * break, and which is the string itself exactly when the string is plain printable ASCII.
   */
  lemma StrLeaf(cfg: Config, loadFn: Option<string>, s: string)
    requires SaveShrinks(cfg)
    ensures var e := Encode(cfg, loadFn, VStr(s));
      && e.children == [Leaf(UnicodeEscape(s))]
      && '\n' !in e.children[0].text
      && (e.children[0].text == s <==> forall i :: 0 <= i < |s| ==> Plain(s[i]))
  {
    EscapedHasNoNewline(s);
    EscapeIsIdentityIff(s);
  }

  /**
   * Any other iterable is written as a list of its elements would be, under its own
   * class name, one record per element in iteration order; this branch comes before
   * the registry search, so a registered iterable type's save function is never called.
   */
  lemma IterableAsList(cfg: Config, d: Option<string>, cls: string, es: seq<Value>, h: bool)
    requires SaveShrinks(cfg)
    ensures var e := Encode(cfg, d, VIterable(cls, es, h));
      && e == Encode(cfg, d, VList(es)).(tag := cls)
      && |e.children| == |es|
      && forall i :: 0 <= i < |es| ==> e.children[i] == Node(Encode(cfg, Some(""), es[i]))
  {
    forall i | 0 <= i < |es|
      ensures EncodeElems(cfg, es)[i] == Node(Encode(cfg, Some(""), es[i]))
    {
      EncodeElemsAt(cfg, es, i);
    }
  }

  /**
   * A value with no registered type falls back to its str() text: None as the leaf
   * "None" under the tag NoneType, a bool as "True" or "False", an int in decimal.
   */
  lemma FallbackLeaves(cfg: Config, b: bool, i: int)
    requires SaveShrinks(cfg)
    requires FindSaveType(cfg, "NoneType").None? && FindSaveType(cfg, "bool").None?
    requires FindSaveType(cfg, "int").None?
    ensures Encode(cfg, None, VNone) == Entry("NoneType", None, [Leaf("None")])
    ensures Encode(cfg, None, VBool(b)) == Entry("bool", None, [Leaf(if b then "True" else "False")])
    ensures Encode(cfg, None, VInt(i)) == Entry("int", None, [Leaf(IntToString(i))])
  {
  }

  /**
   * A value that reaches the registry search and is an instance of a registered type
   * is written as one nested record: that type's saved value, with an empty directive.
   */
  lemma RegisteredRecord(cfg: Config, d: Option<string>, v: Value, i: nat)
    requires SaveShrinks(cfg) && FallsBack(v) && FindSaveType(cfg, TypeName(v)) == Some(i)
    ensures i < |cfg.types|
    ensures Encode(cfg, d, v).children == [Node(Encode(cfg, Some(""), cfg.types[i].1.saveFn(v)))]
  {
  }

  /** Where addItem puts the new record: at the end, or where list.insert(index, …) would. */
  function Place(items: seq<Item>, index: Option<int>, item: Item): (r: seq<Item>)
    ensures |r| == |items| + 1
    ensures index.None? ==> r == items + [item]
    ensures index.Some? ==>
      var p := InsertPosition(|items|, index.value);
      r[p] == item && r[..p] + r[p + 1..] == items
  {
    match index
    case None => items + [item]
    case Some(k) => InsertAtAddsOne(items, k, item); InsertAt(items, k, item)
  }

  /** A GameSaveEntry object: its type tag, its load directive and its data list. */
  class GameSaveEntry {
    var objType: string
    var loadFn: Option<string>
    var dataList: seq<Item>

    /** A fresh entry is tagged with its own class name, has no directive and no data. */
    constructor ()
      ensures objType == EntryClassName && loadFn == None && dataList == []
    {
      objType := EntryClassName;
      loadFn := None;
      dataList := [];
    }

    /** The entry's current contents as a value. */
    function Snapshot(): Entry
      reads this
    {
      Entry(objType, loadFn, dataList)
    }

    /**
     * addItem(loadFn, obj, index): builds the record for obj in a fresh entry and then
     * appends it to this entry's data list, or inserts it at index. Only the data list
     * changes, and only by that one record.
     */
    method AddItem(saver: GameSaver, host: Host, newLoadFn: Option<string>, obj: Value, index: Option<int>)
      requires SaveShrinks(saver.ConfigWith(host))
      modifies this
      decreases Size(obj), 2
      ensures objType == old(objType) && loadFn == old(loadFn)
      ensures dataList == Place(old(dataList), index, Node(Encode(saver.ConfigWith(host), newLoadFn, obj)))
    {
      var newEntry := NewRecord(saver, host, newLoadFn, obj);
      dataList := Place(dataList, index, Node(newEntry.Snapshot()));
    }
  }

  /**
   * The first half of addItem: a fresh entry tagged with obj's class name and carrying
   * loadFn, filled branch by branch in the source's dispatch order.
   */
  method NewRecord(saver: GameSaver, host: Host, newLoadFn: Option<string>, obj: Value) returns (newEntry: GameSaveEntry)
    requires SaveShrinks(saver.ConfigWith(host))
    decreases Size(obj), 1
    ensures fresh(newEntry)
    ensures newEntry.Snapshot() == Encode(saver.ConfigWith(host), newLoadFn, obj)
  {
    newEntry := new GameSaveEntry();
    newEntry.objType := TypeName(obj);
    newEntry.loadFn := newLoadFn;
    match obj {
      case VDict(ps) =>
        AddPairs(saver, host, newEntry, ps);
      case VList(es) =>
        AddElems(saver, host, newEntry, es);
      case VTuple(es) =>
        AddElems(saver, host, newEntry, es);
      case VIterable(_, es, _) =>
        AddElems(saver, host, newEntry, es);
      case VCallable(_, name) =>
        newEntry.dataList := newEntry.dataList + [Leaf(name)];
      case VEntry(inner) =>
        newEntry.dataList := newEntry.dataList + inner.children;
        newEntry.objType := inner.tag;
      case VStr(s) =>
        newEntry.dataList := newEntry.dataList + [Leaf(UnicodeEscape(s))];
      case VBytes(b) =>
        newEntry.dataList := newEntry.dataList + [Leaf(host.escapeBytes(b))];
      case _ =>
        AddSpecialOrText(saver, host, newEntry, obj);
    }
  }

  /** The loop of addItem's dict branch: one empty-directive (key, value) record per item, in order. */
  method AddPairs(saver: GameSaver, host: Host, newEntry: GameSaveEntry, ps: seq<(Value, Value)>)
    requires SaveShrinks(saver.ConfigWith(host))
    requires newEntry.dataList == []
    modifies newEntry
    decreases PairsSize(ps), 3
    ensures newEntry.objType == old(newEntry.objType) && newEntry.loadFn == old(newEntry.loadFn)
    ensures newEntry.dataList == EncodePairs(saver.ConfigWith(host), ps)
  {
    var k := 0;
    while k < |ps|
      invariant 0 <= k <= |ps|
      invariant newEntry.objType == old(newEntry.objType) && newEntry.loadFn == old(newEntry.loadFn)
      invariant newEntry.dataList == EncodePairs(saver.ConfigWith(host), ps[..k])
    {
      var pair := VTuple([ps[k].0, ps[k].1]);
      PairsSizeSplit(ps, k);
      PairTupleSize(ps[k].0, ps[k].1);
      newEntry.AddItem(saver, host, Some(""), pair, None);
      assert ps[..k + 1][..k] == ps[..k];
      k := k + 1;
    }
    assert ps[..k] == ps;
  }

  /** The loop of addItem's iterable branch: one empty-directive record per element, in order. */
  method AddElems(saver: GameSaver, host: Host, newEntry: GameSaveEntry, es: seq<Value>)
    requires SaveShrinks(saver.ConfigWith(host))
    requires newEntry.dataList == []
    modifies newEntry
    decreases SeqSize(es), 3
    ensures newEntry.objType == old(newEntry.objType) && newEntry.loadFn == old(newEntry.loadFn)
    ensures newEntry.dataList == EncodeElems(saver.ConfigWith(host), es)
  {
    ghost var cfg := saver.ConfigWith(host);
    var k := 0;
    while k < |es|
      invariant 0 <= k <= |es|
      invariant saver.ConfigWith(host) == cfg
      invariant newEntry.objType == old(newEntry.objType) && newEntry.loadFn == old(newEntry.loadFn)
      invariant newEntry.dataList == EncodeElems(cfg, es[..k])
    {
      SeqSizeSplit(es, k);
      newEntry.AddItem(saver, host, Some(""), es[k], None);
      assert es[..k + 1][..k] == es[..k];
      assert EncodeElems(cfg, es[..k + 1]) == EncodeElems(cfg, es[..k]) + [Node(Encode(cfg, Some(""), es[k]))];
      k := k + 1;
    }
    assert es[..k] == es;
  }

  /**
   * addItem's last branch: the registered keys in order, and the first one obj is an
   * instance of has its save function's result added as the only child; when none
   * matches, the child is str(obj).
   */
  method AddSpecialOrText(saver: GameSaver, host: Host, newEntry: GameSaveEntry, obj: Value)
    requires SaveShrinks(saver.ConfigWith(host)) && FallsBack(obj)
    requires newEntry.dataList == [] && newEntry.objType == TypeName(obj)
    modifies newEntry
    decreases Size(obj), 0
    ensures newEntry.objType == old(newEntry.objType) && newEntry.loadFn == old(newEntry.loadFn)
    ensures newEntry.dataList == Encode(saver.ConfigWith(host), newEntry.loadFn, obj).children
  {
    var keys := saver.specialTypes;
    var notFoundSpecialType := true;
    var i := 0;
    while i < |keys| && notFoundSpecialType
      invariant 0 <= i <= |keys|
      invariant newEntry.objType == old(newEntry.objType) && newEntry.loadFn == old(newEntry.loadFn)
      invariant notFoundSpecialType ==> newEntry.dataList == []
      invariant notFoundSpecialType ==>
        FirstMatch(host.instanceOf, TypeName(obj), keys, 0) == FirstMatch(host.instanceOf, TypeName(obj), keys, i)
      invariant !notFoundSpecialType ==>
        newEntry.dataList == Encode(saver.ConfigWith(host), newEntry.loadFn, obj).children
    {
      if host.instanceOf(TypeName(obj), keys[i].0) {
        notFoundSpecialType := false;
        var saved := keys[i].1.saveFn(obj);
        newEntry.AddItem(saver, host, Some(""), saved, None);
      }
      i := i + 1;
    }
    if notFoundSpecialType {
      newEntry.dataList := newEntry.dataList + [Leaf(StrOf(obj))];
    }
  }
}

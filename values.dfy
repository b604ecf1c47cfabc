/**
 * The Python values the serialiser meets, as a closed datatype. Reflection on the
 * live object (its class name, isinstance, callable) becomes pattern matching on
 * this type; what the Python runtime decides that the model cannot see is gathered
 * in Host.
 */
module Values {
  import opened Wrappers
  import opened Text
  import opened Tree

  datatype Value =
    | VNone
    | VBool(b: bool)
    | VInt(i: int)
      /** A float, carried as the text str() gives for it. */
    | VFloat(repr: string)
    | VStr(s: string)
    | VBytes(bytes: seq<bv8>)
    | VList(elems: seq<Value>)
    | VTuple(elems: seq<Value>)
      /**
       * Any other iterable that is not a str, bytes or dict: a set, a range, a
       * generator, a subclass of list or tuple, an iterable host object. Its class
       * name, its elements in iteration order, and whether its class is hashable.
       */
    | VIterable(cls: string, elems: seq<Value>, hashable: bool)
      /** A dict, as its (key, value) pairs in iteration order. */
    | VDict(pairs: seq<(Value, Value)>)
      /** A function or method object: its class name and its __name__. */
    | VCallable(cls: string, name: string)
      /** A GameSaveEntry handed to the encoder as a value. */
    | VEntry(entry: Entry)
      /** An instance of a host class: its class name, its str() text, and the values it holds. */
    | VObject(cls: string, text: string, attrs: seq<Value>)

  /** obj.__class__.__name__. */
  function TypeName(v: Value): string {
    match v
    case VNone => "NoneType"
    case VBool(_) => "bool"
    case VInt(_) => "int"
    case VFloat(_) => "float"
    case VStr(_) => "str"
    case VBytes(_) => "bytes"
    case VList(_) => "list"
    case VTuple(_) => "tuple"
    case VIterable(cls, _, _) => cls
    case VDict(_) => "dict"
    case VCallable(cls, _) => cls
    case VEntry(_) => EntryClassName
    case VObject(cls, _, _) => cls
  }

  /**
   * A termination measure for the encoder. The values that may reach a registered
   * save function count 2 or more, so that a save function can turn them into text.
   */
  function Size(v: Value): (n: nat)
    decreases v
    ensures n >= 1
    ensures FallsBack(v) ==> n >= 2
  {
    match v
    case VList(es) => 1 + SeqSize(es)
    case VTuple(es) => 1 + SeqSize(es)
    case VIterable(_, es, _) => 1 + SeqSize(es)
    case VDict(ps) => 1 + PairsSize(ps)
    case VObject(_, _, attrs) => 2 + SeqSize(attrs)
    case VNone => 2
    case VBool(_) => 2
    case VInt(_) => 2
    case VFloat(_) => 2
    case _ => 1
  }

  function SeqSize(vs: seq<Value>): nat
    decreases vs
  {
    if vs == [] then 0 else SeqSize(vs[..|vs| - 1]) + Size(vs[|vs| - 1])
  }

  function PairsSize(ps: seq<(Value, Value)>): nat
    decreases ps
  {
    if ps == [] then 0 else PairsSize(ps[..|ps| - 1]) + PairSize(ps[|ps| - 1])
  }

  function PairSize(p: (Value, Value)): nat
    decreases p
  {
    2 + Size(p.0) + Size(p.1)
  }

  lemma {:induction false} SeqSizeSplit(vs: seq<Value>, i: nat)
    requires i < |vs|
    ensures SeqSize(vs[..i]) + Size(vs[i]) <= SeqSize(vs)
    decreases |vs|
  {
    var n := |vs|;
    if i < n - 1 {
      SeqSizeSplit(vs[..n - 1], i);
      assert vs[..n - 1][..i] == vs[..i];
    } else {
      assert vs[..i] == vs[..n - 1];
    }
  }

  lemma {:induction false} PairsSizeSplit(ps: seq<(Value, Value)>, i: nat)
    requires i < |ps|
    ensures PairsSize(ps[..i]) + 2 + Size(ps[i].0) + Size(ps[i].1) <= PairsSize(ps)
    decreases |ps|
  {
    var n := |ps|;
    if i < n - 1 {
      PairsSizeSplit(ps[..n - 1], i);
      assert ps[..n - 1][..i] == ps[..i];
    } else {
      assert ps[..i] == ps[..n - 1];
    }
  }

  /** The tuple (k, v) that dict.items() yields is smaller than the pair's share of the dict. */
  lemma PairTupleSize(k: Value, v: Value)
    ensures Size(VTuple([k, v])) == 1 + Size(k) + Size(v)
  {
    assert [k, v][..1] == [k];
    assert [k][..0] == [];
    assert SeqSize([k]) == Size(k);
    assert SeqSize([k, v]) == SeqSize([k]) + Size(v);
  }

  /** The values that may be dict keys: lists and dicts are not, a tuple is when its elements are. */
  predicate Hashable(v: Value) {
    match v
    case VList(_) => false
    case VDict(_) => false
    case VTuple(es) => forall i :: 0 <= i < |es| ==> Hashable(es[i])
    case VIterable(_, _, h) => h
    case _ => true
  }

  /** The values that reach the encoder's registry search and its str() fallback. */
  predicate FallsBack(v: Value) {
    v.VNone? || v.VBool? || v.VInt? || v.VFloat? || v.VObject?
  }

  /** str(obj) for the values that reach the encoder's fallback. */
  function StrOf(v: Value): string
    requires FallsBack(v)
  {
    match v
    case VNone => "None"
    case VBool(b) => if b then "True" else "False"
    case VInt(i) => IntToString(i)
    case VFloat(repr) => repr
    case VObject(_, text, _) => text
  }

  /**
   * What the Python runtime decides and the model leaves open: isinstance over the
   * host's classes (class name, registered key), the bytes escape codec
   * (codecs.escape_encode, codecs.escape_decode; None where the latter raises), and
   * float() on text (the str() text of the float it gives; None where it raises).
   */
  datatype Host = Host(
    instanceOf: (string, string) -> bool,
    escapeBytes: seq<bv8> -> string,
    unescapeBytes: string -> Option<seq<bv8>>,
    parseFloat: string -> Option<string>)
}

/**
 * What survives a save and a load: a value encoded by addItem, written by
 * writeEntry, read by readEntry and decoded by reconstructObject comes back equal,
 * for the values whose every part the engine can carry (Portable).
 */
module RoundTrip {
  import opened Wrappers
  import opened Text
  import opened Tree
  import opened Values
  import opened Registry
  import opened Dicts
  import opened Encoder
  import opened Codec
  import opened Decoder

  /** A text that can stand as a leaf line: no line break, and not the nested-entry marker. */
  predicate LeafText(t: string) {
    '\n' !in t && t != EntryMarker
  }

  /**
   * The values that come back equal. A str must be plain printable ASCII (the escape
   * is never undone); a float's text and a bytes' escape must be read back by the
   * host as the same value; a GameSaveEntry must be a fresh, already settled one; an
   * instance of a host class must have a registered type whose restore function
   * undoes its save function. Functions and methods never load, and neither do the
   * other iterables, whose records carry their own class name.
   */
  ghost predicate Portable(cfg: Config, v: Value)
    requires SaveShrinks(cfg)
    decreases Size(v), 0
  {
    match v
    case VNone => true
    case VBool(_) => true
    case VInt(_) => true
    case VFloat(repr) => cfg.host.parseFloat(repr) == Some(repr) && LeafText(repr)
    case VStr(s) => (forall i :: 0 <= i < |s| ==> Plain(s[i])) && s != EntryMarker
    case VBytes(b) =>
      var t := cfg.host.escapeBytes(b);
      cfg.host.unescapeBytes(t) == Some(b) && LeafText(t)
    case VList(es) => PortableElems(cfg, es)
    case VTuple(es) => PortableElems(cfg, es)
    case VDict(ps) => PortablePairs(cfg, ps) && UniqueKeys(ps)
    case VCallable(_, _) => false
    case VIterable(_, _, _) => false
    case VEntry(inner) =>
      && inner.tag == EntryClassName && inner.directive == None
      && ReadBackSeq(inner.children) == inner.children
      && (forall i :: 0 <= i < |inner.children| ==> ItemWritable(inner.children[i]))
    case VObject(cls, _, _) =>
      && '\n' !in cls
      && match FindSaveType(cfg, cls)
         case None => false
         case Some(i) =>
           var saved := cfg.types[i].1.saveFn(v);
           assert TypeName(v) == cls;
           && Portable(cfg, saved)
           && match FindRestoreType(cfg, cls)
              case Matched(j) =>
                cfg.types[j].1.restoreFn(One(Node(ReadBack(Encode(cfg, Some(""), saved))))) == v
              case _ => false
  }

  ghost predicate PortableElems(cfg: Config, es: seq<Value>)
    requires SaveShrinks(cfg)
    decreases SeqSize(es), 1
  {
    es == [] || (PortableElems(cfg, es[..|es| - 1]) && Portable(cfg, es[|es| - 1]))
  }

  ghost predicate PortablePairs(cfg: Config, ps: seq<(Value, Value)>)
    requires SaveShrinks(cfg)
    decreases PairsSize(ps), 1
  {
    if ps == [] then true
    else
      var n := |ps| - 1;
      assert PairsSize(ps) == PairsSize(ps[..n]) + PairSize(ps[n]);
      && PortablePairs(cfg, ps[..n])
      && Portable(cfg, ps[n].0) && Portable(cfg, ps[n].1) && Hashable(ps[n].0)
  }

  /** Reading back a data list one element longer reads back one element more. */
  lemma {:induction false} ReadBackSeqSnoc(xs: seq<Item>, x: Item)
    ensures ReadBackSeq(xs + [x]) == ReadBackSeq(xs) + [ReadBackItem(x)]
  {
    if xs == [] {
      assert [] + [x] == [x];
    } else {
      ReadBackSeqSnoc(xs[1..], x);
      assert (xs + [x])[1..] == xs[1..] + [x];
    }
  }

  lemma LastSplit<T>(s: seq<T>)
    requires |s| > 0
    ensures s[..|s| - 1] + [s[|s| - 1]] == s
  {
  }

  /** The text of an int has no line break and is not the marker. */
  lemma IntText(i: int)
    ensures LeafText(IntToString(i))
  {
    var s := IntToString(i);
    var d := NatToString(if i < 0 then -i else i);
    assert s[|s| - 1] == d[|d| - 1];
    assert IsDigit(d[|d| - 1]);
    assert '\n' !in s by {
      forall k | 0 <= k < |s|
        ensures s[k] != '\n'
      {
        if i < 0 && k > 0 {
          assert s[k] == d[k - 1];
        }
      }
    }
  }

  /** A value with no registered type is written as one leaf of its str() text. */
  lemma FallbackRecord(cfg: Config, d: Option<string>, v: Value)
    requires SaveShrinks(cfg) && FallsBack(v) && FindSaveType(cfg, TypeName(v)).None?
    ensures ReadBack(Encode(cfg, d, v)) == Entry(TypeName(v), Some(DirectiveText(d)), [Leaf(StrOf(v))])
  {
    assert ReadBackSeq([Leaf(StrOf(v))]) == [Leaf(StrOf(v))];
  }

  /** None, bools, ints and floats come back through their str() leaf. */
  lemma ScalarRoundTrip(cfg: Config, d: Option<string>, v: Value)
    requires Unclaimed(cfg) && SaveShrinks(cfg) && Portable(cfg, v)
    requires v.VNone? || v.VBool? || v.VInt? || v.VFloat?
    ensures var e := ReadBack(Encode(cfg, d, v));
      Decode(cfg, e.tag, e.children) == Ok(v)
  {
    BuiltinUnmatched(cfg, TypeName(v));
    FallbackRecord(cfg, d, v);
    var e := ReadBack(Encode(cfg, d, v));
    assert e.tag == TypeName(v) && e.children == [Leaf(StrOf(v))];
    ScalarLeaf(cfg, v);
  }

  /** The decoder reads each scalar's str() leaf back as the scalar. */
  lemma ScalarLeaf(cfg: Config, v: Value)
    requires Unclaimed(cfg) && SaveShrinks(cfg) && Portable(cfg, v)
    requires v.VNone? || v.VBool? || v.VInt? || v.VFloat?
    ensures Decode(cfg, TypeName(v), [Leaf(StrOf(v))]) == Ok(v)
  {
    match v
    case VNone =>
      NoneAnyPayload(cfg, [Leaf("None")]);
    case VBool(b) =>
      BoolWords(cfg);
    case VInt(i) =>
      IntLeaf(cfg, i);
    case VFloat(repr) =>
      FloatLeaf(cfg, repr);
  }

  lemma IntLeaf(cfg: Config, i: int)
    requires Unclaimed(cfg)
    ensures Decode(cfg, "int", [Leaf(IntToString(i))]) == Ok(VInt(i))
  {
    var t := IntToString(i);
    ParseIntOfIntToString(i);
    IntLine(cfg, t);
  }

  lemma FloatLeaf(cfg: Config, repr: string)
    requires Unclaimed(cfg) && cfg.host.parseFloat(repr) == Some(repr)
    ensures Decode(cfg, "float", [Leaf(repr)]) == Ok(VFloat(repr))
  {
    BuiltinUnmatched(cfg, "float");
  }

  /** A plain str is its own escape, so it comes back as itself. */
  lemma StrRoundTrip(cfg: Config, d: Option<string>, s: string)
    requires Unclaimed(cfg) && SaveShrinks(cfg) && Portable(cfg, VStr(s))
    ensures var e := ReadBack(Encode(cfg, d, VStr(s)));
      Decode(cfg, e.tag, e.children) == Ok(VStr(s))
  {
    EscapeIsIdentityIff(s);
    assert ReadBackSeq([Leaf(s)]) == [Leaf(s)];
    StrLineUnchanged(cfg, s);
  }

  /**
   * A str with any character outside plain printable ASCII comes back as its
   * unicode_escape text, which differs from it: "a\nb" returns with a backslash
   * and an "n" in place of the line break.
   */
  lemma EscapeNotUndone(cfg: Config, d: Option<string>, s: string)
    requires Unclaimed(cfg) && SaveShrinks(cfg)
    requires exists i :: 0 <= i < |s| && !Plain(s[i])
    ensures var e := ReadBack(Encode(cfg, d, VStr(s)));
      Decode(cfg, e.tag, e.children) == Ok(VStr(UnicodeEscape(s)))
    ensures UnicodeEscape(s) != s
  {
    EscapeIsIdentityIff(s);
    var t := UnicodeEscape(s);
    assert ReadBackSeq([Leaf(t)]) == [Leaf(t)];
    StrLineUnchanged(cfg, t);
  }

  /** bytes come back when the host's escape_decode undoes its escape_encode. */
  lemma BytesRoundTrip(cfg: Config, d: Option<string>, b: seq<bv8>)
    requires Unclaimed(cfg) && SaveShrinks(cfg) && Portable(cfg, VBytes(b))
    ensures var e := ReadBack(Encode(cfg, d, VBytes(b)));
      Decode(cfg, e.tag, e.children) == Ok(VBytes(b))
  {
    BuiltinUnmatched(cfg, "bytes");
    var t := cfg.host.escapeBytes(b);
    assert ReadBackSeq([Leaf(t)]) == [Leaf(t)];
  }

  /** A settled GameSaveEntry comes back with the same data list. */
  lemma EntryRoundTrip(cfg: Config, d: Option<string>, inner: Entry)
    requires Unclaimed(cfg) && SaveShrinks(cfg) && Portable(cfg, VEntry(inner))
    ensures var e := ReadBack(Encode(cfg, d, VEntry(inner)));
      Decode(cfg, e.tag, e.children) == Ok(VEntry(inner))
  {
    EntryRewrap(cfg, inner.children);
  }

  /**
   * Another iterable's record carries its own class name, so unless that name is
   * registered it does not load: there is no built-in tag for it.
   */
  lemma IterableNotRestored(cfg: Config, d: Option<string>, cls: string, es: seq<Value>, h: bool)
    requires SaveShrinks(cfg)
    requires cls !in BuiltinTags && cls != "function" && cls != "method"
    requires FindRestoreType(cfg, cls).Unmatched?
    ensures var e := ReadBack(Encode(cfg, d, VIterable(cls, es, h)));
      Decode(cfg, e.tag, e.children) == Err(UnrecognisedClass(cls))
  {
    var e := ReadBack(Encode(cfg, d, VIterable(cls, es, h)));
    UnknownTagFails(cfg, e.tag, e.children);
  }

  /** An instance of a registered host class comes back through its restore function. */
  lemma ObjectRoundTrip(cfg: Config, d: Option<string>, v: Value)
    requires SaveShrinks(cfg) && v.VObject? && Portable(cfg, v)
    ensures var e := ReadBack(Encode(cfg, d, v));
      Decode(cfg, e.tag, e.children) == Ok(v)
  {
    var i := FindSaveType(cfg, v.cls).value;
    var rb := ReadBack(Encode(cfg, Some(""), cfg.types[i].1.saveFn(v)));
    var e := Encode(cfg, d, v);
    assert e.children == [Node(Encode(cfg, Some(""), cfg.types[i].1.saveFn(v)))];
    assert ReadBackSeq(e.children) == [Node(rb)];
    assert Collapse([Node(rb)]) == One(Node(rb));
  }

  /**
   * A registry with one host class, Vec, whose save function writes the str "v" and
   * whose restore function rebuilds an empty Vec; isinstance and isSubclass are
   * class-name equality.
   */
  function VecConfig(): Config {
    Config(
      [("Vec", SpecialType((p: Payload) => VObject("Vec", "", []), (v: Value) => VStr("v")))],
      Some((tag: string, key: string) => tag == key),
      Host((cls: string, key: string) => cls == key,
        (b: seq<bv8>) => "", (t: string) => None, (t: string) => None))
  }

  /** A registered type is matched by the encoder, and an instance of it comes back through it. */
  lemma RegisteredObjectRoundTrip(d: Option<string>)
    ensures var cfg := VecConfig();
      var v := VObject("Vec", "", []);
      && Unclaimed(cfg) && SaveShrinks(cfg)
      && FindSaveType(cfg, "Vec") == Some(0) && Portable(cfg, v)
      && Encode(cfg, d, v).children == [Node(Encode(cfg, Some(""), VStr("v")))]
      && var e := ReadBack(Encode(cfg, d, v));
        Decode(cfg, e.tag, e.children) == Ok(v)
  {
    VecRegistry();
    VecPortable();
    ObjectRoundTrip(VecConfig(), d, VObject("Vec", "", []));
  }

  lemma VecRegistry()
    ensures Unclaimed(VecConfig()) && SaveShrinks(VecConfig())
    ensures FindSaveType(VecConfig(), "Vec") == Some(0)
    ensures FindRestoreType(VecConfig(), "Vec") == Matched(0)
  {
    var cfg := VecConfig();
    assert forall t :: t in BuiltinTags ==> t != "Vec" by {
      assert forall t :: t in BuiltinTags ==> |t| != 3 || t[0] != 'V';
    }
    assert cfg.types[0].0 == "Vec";
  }

  lemma VecPortable()
    ensures Portable(VecConfig(), VObject("Vec", "", []))
  {
    var cfg := VecConfig();
    VecRegistry();
    assert "v" != EntryMarker by { assert |"v"| != |EntryMarker|; }
    assert Portable(cfg, VStr("v"));
  }

  /**
   * Every value the engine can carry comes back equal from its record, read back
   * as readEntry gives it: the decoder undoes the encoder.
   */
  lemma {:induction false} DecodeEncode(cfg: Config, d: Option<string>, v: Value)
    requires Unclaimed(cfg) && SaveShrinks(cfg) && Portable(cfg, v)
    ensures var e := ReadBack(Encode(cfg, d, v));
      Decode(cfg, e.tag, e.children) == Ok(v)
    decreases Size(v), 1
  {
    match v
    case VNone => ScalarRoundTrip(cfg, d, v);
    case VBool(_) => ScalarRoundTrip(cfg, d, v);
    case VInt(_) => ScalarRoundTrip(cfg, d, v);
    case VFloat(_) => ScalarRoundTrip(cfg, d, v);
    case VStr(s) => StrRoundTrip(cfg, d, s);
    case VBytes(b) => BytesRoundTrip(cfg, d, b);
    case VEntry(inner) => EntryRoundTrip(cfg, d, inner);
    case VObject(_, _, _) => ObjectRoundTrip(cfg, d, v);
    case VList(es) => ListRoundTrip(cfg, d, es);
    case VTuple(es) => TupleRoundTrip(cfg, d, es);
    case VDict(ps) => DictRoundTrip(cfg, d, ps);
  }

  /** A list comes back with the same elements in the same order. */
  lemma ListRoundTrip(cfg: Config, d: Option<string>, es: seq<Value>)
    requires Unclaimed(cfg) && SaveShrinks(cfg) && PortableElems(cfg, es)
    ensures var e := ReadBack(Encode(cfg, d, VList(es)));
      Decode(cfg, e.tag, e.children) == Ok(VList(es))
    decreases Size(VList(es)), 0
  {
    BuiltinUnmatched(cfg, "list");
    ElemsRoundTrip(cfg, es);
  }

  /** A tuple comes back with the same elements in the same order. */
  lemma TupleRoundTrip(cfg: Config, d: Option<string>, es: seq<Value>)
    requires Unclaimed(cfg) && SaveShrinks(cfg) && PortableElems(cfg, es)
    ensures var e := ReadBack(Encode(cfg, d, VTuple(es)));
      Decode(cfg, e.tag, e.children) == Ok(VTuple(es))
    decreases Size(VTuple(es)), 0
  {
    BuiltinUnmatched(cfg, "tuple");
    ElemsRoundTrip(cfg, es);
  }

  /** A dict with distinct keys comes back with the same items in the same order. */
  lemma DictRoundTrip(cfg: Config, d: Option<string>, ps: seq<(Value, Value)>)
    requires Unclaimed(cfg) && SaveShrinks(cfg) && PortablePairs(cfg, ps) && UniqueKeys(ps)
    ensures var e := ReadBack(Encode(cfg, d, VDict(ps)));
      Decode(cfg, e.tag, e.children) == Ok(VDict(ps))
    decreases Size(VDict(ps)), 0
  {
    BuiltinUnmatched(cfg, "dict");
    PairsRoundTrip(cfg, ps);
    DictOfDistinct(ps);
  }

  /** The elements of a list or tuple come back one by one, in order. */
  lemma {:induction false} ElemsRoundTrip(cfg: Config, es: seq<Value>)
    requires Unclaimed(cfg) && SaveShrinks(cfg) && PortableElems(cfg, es)
    ensures DecodeElems(cfg, ReadBackSeq(EncodeElems(cfg, es))) == Ok(es)
    decreases SeqSize(es), 2
  {
    if es != [] {
      var n := |es| - 1;
      var front := ReadBackSeq(EncodeElems(cfg, es[..n]));
      var last := Node(ReadBack(Encode(cfg, Some(""), es[n])));
      ReadBackSeqSnoc(EncodeElems(cfg, es[..n]), Node(Encode(cfg, Some(""), es[n])));
      var items := front + [last];
      assert ReadBackSeq(EncodeElems(cfg, es)) == items;
      assert items[..|items| - 1] == front;
      ElemsRoundTrip(cfg, es[..n]);
      DecodeEncode(cfg, Some(""), es[n]);
      LastSplit(es);
    }
  }

  /** The items of a dict come back as the same pairs, in order. */
  lemma {:induction false} PairsRoundTrip(cfg: Config, ps: seq<(Value, Value)>)
    requires Unclaimed(cfg) && SaveShrinks(cfg) && PortablePairs(cfg, ps)
    ensures DecodePairs(cfg, ReadBackSeq(EncodePairs(cfg, ps))) == Ok(ps)
    decreases PairsSize(ps), 2
  {
    if ps != [] {
      var n := |ps| - 1;
      var pair := VTuple([ps[n].0, ps[n].1]);
      assert PairsSize(ps) == PairsSize(ps[..n]) + PairSize(ps[n]);
      var front := ReadBackSeq(EncodePairs(cfg, ps[..n]));
      var record := ReadBack(Encode(cfg, Some(""), pair));
      ReadBackSeqSnoc(EncodePairs(cfg, ps[..n]), Node(Encode(cfg, Some(""), pair)));
      var items := front + [Node(record)];
      assert ReadBackSeq(EncodePairs(cfg, ps)) == items;
      assert items[..|items| - 1] == front;
      PairsRoundTrip(cfg, ps[..n]);
      PairRecord(cfg, ps[n].0, ps[n].1);
      assert AsPair(pair) == Some(ps[n]);
      LastSplit(ps);
    }
  }

  /** The tuple record of one dict item decodes to that (key, value) tuple. */
  lemma PairRecord(cfg: Config, k: Value, x: Value)
    requires Unclaimed(cfg) && SaveShrinks(cfg) && Portable(cfg, k) && Portable(cfg, x)
    ensures var e := ReadBack(Encode(cfg, Some(""), VTuple([k, x])));
      Decode(cfg, e.tag, e.children) == Ok(VTuple([k, x]))
    decreases 1 + Size(k) + Size(x), 2
  {
    PairTupleSize(k, x);
    assert PortableElems(cfg, [k, x]) by {
      assert [k, x][..1] == [k];
      assert [k][..0] == [];
    }
    DecodeEncode(cfg, Some(""), VTuple([k, x]));
  }

  /** The built-in type names hold no line break. */
  lemma BuiltinTagLine(v: Value)
    requires !v.VObject? && !v.VCallable? && !v.VIterable?
    ensures '\n' !in TypeName(v)
  {
  }

  /** The str() leaf of a portable scalar is a leaf line. */
  lemma ScalarText(cfg: Config, v: Value)
    requires SaveShrinks(cfg) && Portable(cfg, v)
    requires v.VNone? || v.VBool? || v.VInt? || v.VFloat?
    ensures LeafText(StrOf(v))
  {
    if v.VInt? {
      IntText(v.i);
    }
  }

  /**
   * The record of a portable value can be written: its tag, its directive and every
   * leaf are single lines, and no leaf is the marker.
   */
  lemma {:induction false} PortableWritable(cfg: Config, d: Option<string>, v: Value)
    requires Unclaimed(cfg) && SaveShrinks(cfg) && Portable(cfg, v)
    requires '\n' !in DirectiveText(d)
    ensures Writable(Encode(cfg, d, v))
    decreases Size(v), 1
  {
    match v
    case VObject(_, _, _) =>
      ObjectWritable(cfg, d, v);
    case VList(_) =>
      SequenceWritable(cfg, d, v);
    case VTuple(_) =>
      SequenceWritable(cfg, d, v);
    case VDict(_) =>
      DictWritable(cfg, d, v);
    case VEntry(inner) =>
      assert '\n' !in EntryClassName;
    case VStr(s) =>
      StrWritable(cfg, d, s);
    case VBytes(_) =>
      BuiltinTagLine(v);
    case VCallable(_, _) =>
      assert false;
    case VIterable(_, _, _) =>
      assert false;
    case VNone =>
      ScalarWritable(cfg, d, v);
    case VBool(_) =>
      ScalarWritable(cfg, d, v);
    case VInt(_) =>
      ScalarWritable(cfg, d, v);
    case VFloat(_) =>
      ScalarWritable(cfg, d, v);
  }

  lemma ObjectWritable(cfg: Config, d: Option<string>, v: Value)
    requires Unclaimed(cfg) && SaveShrinks(cfg) && Portable(cfg, v) && v.VObject?
    requires '\n' !in DirectiveText(d)
    ensures Writable(Encode(cfg, d, v))
    decreases Size(v), 0
  {
    assert FindSaveType(cfg, v.cls).Some?;
    var i := FindSaveType(cfg, v.cls).value;
    var saved := cfg.types[i].1.saveFn(v);
    assert TypeName(v) == v.cls && FallsBack(v);
    assert Size(saved) < Size(v);
    PortableWritable(cfg, Some(""), saved);
    assert Encode(cfg, d, v).children == [Node(Encode(cfg, Some(""), saved))];
  }

  lemma SequenceWritable(cfg: Config, d: Option<string>, v: Value)
    requires Unclaimed(cfg) && SaveShrinks(cfg) && Portable(cfg, v) && (v.VList? || v.VTuple?)
    requires '\n' !in DirectiveText(d)
    ensures Writable(Encode(cfg, d, v))
    decreases Size(v), 0
  {
    BuiltinTagLine(v);
    ElemsWritable(cfg, v.elems);
  }

  lemma DictWritable(cfg: Config, d: Option<string>, v: Value)
    requires Unclaimed(cfg) && SaveShrinks(cfg) && Portable(cfg, v) && v.VDict?
    requires '\n' !in DirectiveText(d)
    ensures Writable(Encode(cfg, d, v))
    decreases Size(v), 0
  {
    BuiltinTagLine(v);
    PairsWritable(cfg, v.pairs);
  }

  lemma StrWritable(cfg: Config, d: Option<string>, s: string)
    requires SaveShrinks(cfg) && Portable(cfg, VStr(s))
    requires '\n' !in DirectiveText(d)
    ensures Writable(Encode(cfg, d, VStr(s)))
  {
    BuiltinTagLine(VStr(s));
    EscapeIsIdentityIff(s);
    assert Encode(cfg, d, VStr(s)).children == [Leaf(s)];
  }

  lemma ScalarWritable(cfg: Config, d: Option<string>, v: Value)
    requires Unclaimed(cfg) && SaveShrinks(cfg) && Portable(cfg, v)
    requires v.VNone? || v.VBool? || v.VInt? || v.VFloat?
    requires '\n' !in DirectiveText(d)
    ensures Writable(Encode(cfg, d, v))
  {
    BuiltinTagLine(v);
    BuiltinUnmatched(cfg, TypeName(v));
    ScalarText(cfg, v);
    assert Encode(cfg, d, v).children == [Leaf(StrOf(v))];
  }

  lemma {:induction false} ElemsWritable(cfg: Config, es: seq<Value>)
    requires Unclaimed(cfg) && SaveShrinks(cfg) && PortableElems(cfg, es)
    ensures forall i :: 0 <= i < |es| ==> ItemWritable(EncodeElems(cfg, es)[i])
    decreases SeqSize(es), 2
  {
    if es != [] {
      var n := |es| - 1;
      ElemsWritable(cfg, es[..n]);
      PortableWritable(cfg, Some(""), es[n]);
      var items := EncodeElems(cfg, es);
      assert forall i :: 0 <= i < n ==> items[i] == EncodeElems(cfg, es[..n])[i];
    }
  }

  lemma {:induction false} PairsWritable(cfg: Config, ps: seq<(Value, Value)>)
    requires Unclaimed(cfg) && SaveShrinks(cfg) && PortablePairs(cfg, ps)
    ensures forall i :: 0 <= i < |ps| ==> ItemWritable(EncodePairs(cfg, ps)[i])
    decreases PairsSize(ps), 2
  {
    if ps != [] {
      var n := |ps| - 1;
      assert PairsSize(ps) == PairsSize(ps[..n]) + PairSize(ps[n]);
      PairsWritable(cfg, ps[..n]);
      PairWritable(cfg, ps[n].0, ps[n].1);
      var items := EncodePairs(cfg, ps);
      assert forall i :: 0 <= i < n ==> items[i] == EncodePairs(cfg, ps[..n])[i];
    }
  }

  lemma PairWritable(cfg: Config, k: Value, x: Value)
    requires Unclaimed(cfg) && SaveShrinks(cfg) && Portable(cfg, k) && Portable(cfg, x)
    ensures Writable(Encode(cfg, Some(""), VTuple([k, x])))
    decreases 1 + Size(k) + Size(x), 2
  {
    PairTupleSize(k, x);
    assert PortableElems(cfg, [k, x]) by {
      assert [k, x][..1] == [k];
      assert [k][..0] == [];
    }
    PortableWritable(cfg, Some(""), VTuple([k, x]));
  }
}

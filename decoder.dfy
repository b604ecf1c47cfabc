/**
 * SaveableObject.reconstructObject and its helpers: turning a record's type tag and
 * data list back into a value. The registry is consulted first, then the container
 * tags, then the scalar tags after a one-element data list has been collapsed.
 */
module Decoder {
  import opened Wrappers
  import opened Text
  import opened Tree
  import opened Values
  import opened Registry
  import opened Dicts

  /** The ways reconstructObject raises. */
  datatype DecodeError =
      /** Types are registered but isSubclass was never set: calling None raises TypeError. */
    | NoSubclassPredicate
      /** The IOError for a tag no branch handles. */
    | UnrecognisedClass(tag: string)
      /** The IOError for a "function" or "method" tag. */
    | CannotLoadFunction(tag: string)
      /** A text line where a record is needed: a str has no dataList (AttributeError). */
    | NotAnEntry
      /** A dict item whose value cannot be subscripted as [0] and [1]. */
    | NotAPair
      /** A dict key that is a list or a dict (TypeError). */
    | Unhashable(key: Value)
      /** A str, bytes, int or float tag whose data is not a single line (TypeError). */
    | NotText(tag: string)
      /** int() rejects the text (ValueError). */
    | BadInt(text: string)
      /** float() rejects the text (ValueError). */
    | BadFloat(text: string)
      /** codecs.escape_decode rejects the text. */
    | BadBytes(text: string)

  /**
   * reconstructObject(items, tag): the value a record stands for. A registered type
   * that isSubclass accepts wins, then list, tuple and dict, then the scalar tags.
   */
  function Decode(cfg: Config, tag: string, items: seq<Item>): (r: Result<Value, DecodeError>)
    decreases ItemsSize(items), 2
  {
    match FindRestoreType(cfg, tag)
    case NoPredicate => Err(NoSubclassPredicate)
    case Matched(i) => Ok(cfg.types[i].1.restoreFn(Collapse(items)))
    case Unmatched =>
      if tag == "list" then DecodeList(cfg, items)
      else if tag == "tuple" then DecodeTuple(cfg, items)
      else if tag == "dict" then DecodeDict(cfg, items)
      else DecodeScalar(cfg.host, tag, Collapse(items))
  }

  /** reconstructList: one value per record, in order. */
  function DecodeList(cfg: Config, items: seq<Item>): (r: Result<Value, DecodeError>)
    decreases ItemsSize(items), 1
    ensures r.Ok? ==> r.value.VList? && |r.value.elems| == |items|
  {
    match DecodeElems(cfg, items)
    case Err(err) => Err(err)
    case Ok(vs) => Ok(VList(vs))
  }

  /** reconstructTuple: the same values as reconstructList, made a tuple. */
  function DecodeTuple(cfg: Config, items: seq<Item>): (r: Result<Value, DecodeError>)
    decreases ItemsSize(items), 1
    ensures r.Ok? ==> r.value.VTuple? && |r.value.elems| == |items|
  {
    match DecodeElems(cfg, items)
    case Err(err) => Err(err)
    case Ok(vs) => Ok(VTuple(vs))
  }

  /** reconstructDictionary: each record a (key, value) pair, assigned in order. */
  function DecodeDict(cfg: Config, items: seq<Item>): (r: Result<Value, DecodeError>)
    decreases ItemsSize(items), 1
    ensures r.Ok? ==> r.value.VDict? && UniqueKeys(r.value.pairs)
  {
    match DecodePairs(cfg, items)
    case Err(err) => Err(err)
    case Ok(kvs) => Ok(VDict(DictFromPairs(kvs)))
  }

  /** One element of a container record: a nested record decoded; a text line has no dataList. */
  function Element(cfg: Config, item: Item): (r: Result<Value, DecodeError>)
    decreases ItemSize(item) - 1, 3
  {
    match item
    case Leaf(_) => Err(NotAnEntry)
    case Node(e) => Decode(cfg, e.tag, e.children)
  }

  /** The elements of a list or tuple record, the first failure stopping the loop. */
  function DecodeElems(cfg: Config, items: seq<Item>): (r: Result<seq<Value>, DecodeError>)
    decreases ItemsSize(items), 0
    ensures r.Ok? ==> |r.value| == |items|
  {
    if items == [] then Ok([])
    else
      var n := |items| - 1;
      assert ItemsSize(items) == ItemsSize(items[..n]) + ItemSize(items[n]);
      match DecodeElems(cfg, items[..n])
      case Err(err) => Err(err)
      case Ok(vs) =>
        match Element(cfg, items[n])
        case Err(err) => Err(err)
        case Ok(v) => Ok(vs + [v])
  }

  /** The (key, value) pairs of a dict record, in order, before they are assigned. */
  function DecodePairs(cfg: Config, items: seq<Item>): (r: Result<seq<(Value, Value)>, DecodeError>)
    decreases ItemsSize(items), 0
    ensures r.Ok? ==> |r.value| == |items|
    ensures r.Ok? ==> forall i :: 0 <= i < |r.value| ==> Hashable(r.value[i].0)
  {
    if items == [] then Ok([])
    else
      var n := |items| - 1;
      assert ItemsSize(items) == ItemsSize(items[..n]) + ItemSize(items[n]);
      match DecodePairs(cfg, items[..n])
      case Err(err) => Err(err)
      case Ok(kvs) =>
        match Element(cfg, items[n])
        case Err(err) => Err(err)
        case Ok(v) =>
          match AsPair(v)
          case None => Err(NotAPair)
          case Some((key, val)) =>
            if Hashable(key) then Ok(kvs + [(key, val)]) else Err(Unhashable(key))
  }

  /**
   * `tuple[0]` and `tuple[1]` on a decoded dict item: the first two elements of a
   * tuple or list, the first two characters of a str, the first two bytes of a
   * bytes as ints, the values under the keys 0 and 1 of a dict; anything else raises.
   */
  function AsPair(v: Value): (r: Option<(Value, Value)>)
    ensures (v.VTuple? || v.VList?) ==> (r.Some? <==> |v.elems| >= 2)
    ensures (v.VTuple? || v.VList?) && r.Some? ==> r.value == (v.elems[0], v.elems[1])
  {
    match v
    case VTuple(es) => if |es| >= 2 then Some((es[0], es[1])) else None
    case VList(es) => if |es| >= 2 then Some((es[0], es[1])) else None
    case VStr(s) => if |s| >= 2 then Some((VStr([s[0]]), VStr([s[1]]))) else None
    case VBytes(b) => if |b| >= 2 then Some((VInt(b[0] as int), VInt(b[1] as int))) else None
    case VDict(ps) =>
      var k := Get(ps, VInt(0));
      var x := Get(ps, VInt(1));
      if k.Some? && x.Some? then Some((k.value, x.value)) else None
    case _ => None
  }

  /** `result[key] = val` for each pair in turn, starting from an empty dict. */
  function DictFromPairs(kvs: seq<(Value, Value)>): (d: seq<(Value, Value)>)
    ensures UniqueKeys(d)
  {
    if kvs == [] then []
    else
      var n := |kvs| - 1;
      Put(DictFromPairs(kvs[..n]), kvs[n].0, kvs[n].1)
  }

  /** The value assigned last to a key in a sequence of pairs: an independent reading of "last write wins". */
  function LastValue(kvs: seq<(Value, Value)>, key: Value): Option<Value> {
    if kvs == [] then None
    else if kvs[|kvs| - 1].0 == key then Some(kvs[|kvs| - 1].1)
    else LastValue(kvs[..|kvs| - 1], key)
  }

  /** bool() of the collapsed data: a line is lower-cased and must read "true" or "1". */
  function Truth(p: Payload): bool {
    match p
    case One(Leaf(t)) => var l := Lower(t); l == "true" || l == "1"
    case One(Node(_)) => true
    case Many(xs) => |xs| > 0
  }

  /** The scalar branches of reconstructObject, after a one-element data list has been collapsed. */
  function DecodeScalar(host: Host, tag: string, p: Payload): (r: Result<Value, DecodeError>)
    ensures r.Ok? && tag == "str" ==> p.One? && p.item.Leaf? && r.value == VStr(p.item.text)
    ensures r.Ok? && tag == "int" ==> p.One? && p.item.Leaf? && ParseInt(p.item.text).Some? && r.value == VInt(ParseInt(p.item.text).value)
    ensures r.Err? ==> tag !in {"bool", "NoneType", "None", EntryClassName}
  {
    if tag == "bool" then Ok(VBool(Truth(p)))
    else if tag == "NoneType" || tag == "None" then Ok(VNone)
    else if tag == EntryClassName then Ok(VEntry(Entry(EntryClassName, None, Expand(p))))
    else if tag == "str" then
      match p
      case One(Leaf(t)) => Ok(VStr(t))
      case _ => Err(NotText(tag))
    else if tag == "bytes" then
      match p
      case One(Leaf(t)) =>
        (match host.unescapeBytes(t)
         case Some(b) => Ok(VBytes(b))
         case None => Err(BadBytes(t)))
      case _ => Err(NotText(tag))
    else if tag == "int" then
      match p
      case One(Leaf(t)) =>
        (match ParseInt(t)
         case Some(i) => Ok(VInt(i))
         case None => Err(BadInt(t)))
      case _ => Err(NotText(tag))
    else if tag == "float" then
      match p
      case One(Leaf(t)) =>
        (match host.parseFloat(t)
         case Some(f) => Ok(VFloat(f))
         case None => Err(BadFloat(t)))
      case _ => Err(NotText(tag))
    else if tag == "function" || tag == "method" then Err(CannotLoadFunction(tag))
    else Err(UnrecognisedClass(tag))
  }

  /**
   * reconstructList keeps order: the loop succeeds exactly when every element is a
   * record that decodes, and then the i-th value is the i-th record decoded.
   */
  lemma DecodeElemsAt(cfg: Config, items: seq<Item>)
    ensures DecodeElems(cfg, items).Ok? <==> forall i :: 0 <= i < |items| ==> Element(cfg, items[i]).Ok?
    ensures DecodeElems(cfg, items).Ok? ==>
      forall i :: 0 <= i < |items| ==> Element(cfg, items[i]) == Ok(DecodeElems(cfg, items).value[i])
  {
    if forall i :: 0 <= i < |items| ==> Element(cfg, items[i]).Ok? {
      AllElementsOk(cfg, items);
    }
    if DecodeElems(cfg, items).Ok? {
      forall i | 0 <= i < |items|
        ensures Element(cfg, items[i]) == Ok(DecodeElems(cfg, items).value[i])
      {
        ElementAt(cfg, items, i);
      }
    }
  }

  /** Value i of a successful loop is child i decoded. */
  lemma {:induction false} ElementAt(cfg: Config, items: seq<Item>, i: nat)
    requires i < |items| && DecodeElems(cfg, items).Ok?
    ensures Element(cfg, items[i]) == Ok(DecodeElems(cfg, items).value[i])
    decreases |items|
  {
    var n := |items| - 1;
    if i < n {
      ElementAt(cfg, items[..n], i);
      assert items[..n][i] == items[i];
    }
  }

  /** The loop succeeds when every child decodes. */
  lemma {:induction false} AllElementsOk(cfg: Config, items: seq<Item>)
    requires forall i :: 0 <= i < |items| ==> Element(cfg, items[i]).Ok?
    ensures DecodeElems(cfg, items).Ok?
    decreases |items|
  {
    if items != [] {
      var n := |items| - 1;
      assert forall i :: 0 <= i < n ==> items[..n][i] == items[i];
      AllElementsOk(cfg, items[..n]);
    }
  }

  /** The last assignment to a key wins: the decoded dict holds, for each key, the value paired with it last. */
  lemma {:induction false} DictLastWins(kvs: seq<(Value, Value)>, key: Value)
    ensures Get(DictFromPairs(kvs), key) == LastValue(kvs, key)
  {
    if kvs != [] {
      var n := |kvs| - 1;
      DictLastWins(kvs[..n], key);
      GetPut(DictFromPairs(kvs[..n]), kvs[n].0, kvs[n].1, key);
    }
  }

  /** Pairs with distinct keys make a dict with exactly those items in that order. */
  lemma {:induction false} DictOfDistinct(kvs: seq<(Value, Value)>)
    requires UniqueKeys(kvs)
    ensures DictFromPairs(kvs) == kvs
  {
    if kvs != [] {
      var n := |kvs| - 1;
      var prefix := kvs[..n];
      assert UniqueKeys(prefix) by {
        assert forall i :: 0 <= i < n ==> prefix[i] == kvs[i];
      }
      DictOfDistinct(prefix);
      assert !HasKey(prefix, kvs[n].0) by {
        forall i | 0 <= i < n
          ensures prefix[i].0 != kvs[n].0
        {
          assert prefix[i] == kvs[i];
        }
      }
      PutFresh(prefix, kvs[n].0, kvs[n].1);
      assert prefix + [kvs[n]] == kvs;
    }
  }

  /**
   * The registry decides first: the first registered key, in registration order,
   * for which isSubclass(tag, key) holds gets the whole (collapsed) data list,
   * whatever the tag is, built-in or not.
   */
  lemma RegistryFirst(cfg: Config, tag: string, items: seq<Item>, i: nat)
    requires cfg.isSubclass.Some? && i < |cfg.types|
    requires cfg.isSubclass.value(tag, cfg.types[i].0)
    requires forall j :: 0 <= j < i ==> !cfg.isSubclass.value(tag, cfg.types[j].0)
    ensures Decode(cfg, tag, items) == Ok(cfg.types[i].1.restoreFn(Collapse(items)))
  {
    var r := FindRestoreType(cfg, tag);
    assert r.Matched? && r.index == i by {
      if !r.Matched? || r.index != i {
        assert false;
      }
    }
  }

  /** Once a type is registered, nothing loads until isSubclass is set, not even an int. */
  lemma MissingPredicateFails(cfg: Config, tag: string, items: seq<Item>)
    requires |cfg.types| > 0 && cfg.isSubclass.None?
    ensures Decode(cfg, tag, items) == Err(NoSubclassPredicate)
  {
  }

  /** A bool line is read case-insensitively: "true" and "1" give True, every other text False. */
  lemma BoolLine(cfg: Config, t: string)
    requires Unclaimed(cfg)
    ensures Decode(cfg, "bool", [Leaf(t)]) == Ok(VBool(Lower(t) == "true" || Lower(t) == "1"))
    ensures Decode(cfg, "bool", [Leaf(t)]) == Decode(cfg, "bool", [Leaf(Lower(t))])
  {
    BuiltinUnmatched(cfg, "bool");
    LowerIdempotent(t);
  }

  /** str(True) and str(False), as the encoder writes them, come back as the same bool. */
  lemma BoolWords(cfg: Config)
    requires Unclaimed(cfg)
    ensures Decode(cfg, "bool", [Leaf("True")]) == Ok(VBool(true))
    ensures Decode(cfg, "bool", [Leaf("False")]) == Ok(VBool(false))
  {
    BoolLine(cfg, "True");
    BoolLine(cfg, "False");
    LowerBoolWords();
  }

  lemma LowerBoolWords()
    ensures Lower("True") == "true" && Lower("False") == "false"
  {
    assert Lower("True") == "true";
    assert Lower("False") == "false";
  }

  /** A NoneType or None record gives None whatever its data list holds. */
  lemma NoneAnyPayload(cfg: Config, items: seq<Item>)
    requires Unclaimed(cfg)
    ensures Decode(cfg, "NoneType", items) == Ok(VNone)
    ensures Decode(cfg, "None", items) == Ok(VNone)
  {
    BuiltinUnmatched(cfg, "NoneType");
    BuiltinUnmatched(cfg, "None");
  }

  /** A GameSaveEntry record is rewrapped with its data list as it was: collapsing and re-wrapping loses nothing. */
  lemma EntryRewrap(cfg: Config, items: seq<Item>)
    requires Unclaimed(cfg)
    ensures Decode(cfg, EntryClassName, items) == Ok(VEntry(Entry(EntryClassName, None, items)))
  {
    BuiltinUnmatched(cfg, EntryClassName);
  }

  /** A str line is returned as it stands: no escape is undone. */
  lemma StrLineUnchanged(cfg: Config, t: string)
    requires Unclaimed(cfg)
    ensures Decode(cfg, "str", [Leaf(t)]) == Ok(VStr(t))
  {
    BuiltinUnmatched(cfg, "str");
  }

  /** An int line is read by int(): its value, or the ValueError int() raises. */
  lemma IntLine(cfg: Config, t: string)
    requires Unclaimed(cfg)
    ensures ParseInt(t).Some? ==> Decode(cfg, "int", [Leaf(t)]) == Ok(VInt(ParseInt(t).value))
    ensures ParseInt(t).None? ==> Decode(cfg, "int", [Leaf(t)]) == Err(BadInt(t))
  {
    BuiltinUnmatched(cfg, "int");
    assert Collapse([Leaf(t)]) == One(Leaf(t));
    IntScalar(cfg.host, t);
  }

  lemma IntScalar(host: Host, t: string)
    ensures DecodeScalar(host, "int", One(Leaf(t))) ==
      if ParseInt(t).Some? then Ok(VInt(ParseInt(t).value)) else Err(BadInt(t))
  {
    var tag := "int";
    assert tag != "bool" && tag != "NoneType" && tag != "None" && tag != EntryClassName;
    assert tag != "str" by {
      assert tag[0] != "str"[0];
    }
    assert tag != "bytes";
  }

  /** Function and method records always raise, whatever they hold. */
  lemma FunctionTagsFail(cfg: Config, tag: string, items: seq<Item>)
    requires tag == "function" || tag == "method"
    requires FindRestoreType(cfg, tag).Unmatched?
    ensures Decode(cfg, tag, items) == Err(CannotLoadFunction(tag))
  {
  }

  /** A tag that is neither registered nor built in raises instead of giving a default. */
  lemma UnknownTagFails(cfg: Config, tag: string, items: seq<Item>)
    requires tag !in BuiltinTags && tag != "function" && tag != "method"
    requires FindRestoreType(cfg, tag).Unmatched?
    ensures Decode(cfg, tag, items) == Err(UnrecognisedClass(tag))
  {
  }
}

/**
 * SaveableObject: the object a save record is restored into. loadFromSaveData
 * decodes each child record of its data and applies it by the child's directive:
 * a directive ending in "=" assigns a field, any other names a method to call.
 * SaveableWrapper is the stock subclass holding one value in its "data" field.
 */
module Loader {
  import opened Wrappers
  import opened Text
  import opened Tree
  import opened Values
  import opened Registry
  import opened Dicts
  import opened Encoder
  import opened Codec
  import opened Decoder
  import opened RoundTrip

  /** One call of a loading method: its name, the decoded value and refObj. */
  datatype Call = Call(handler: string, arg: Value, ref: Value)

  /** The ways loadFromSaveData raises. */
  datatype LoadError =
      /** reconstructObject raised (a leaf child raises the same AttributeError as NotAnEntry). */
    | Undecodable(cause: DecodeError)
      /** The child has no directive: None has no rstrip (AttributeError). */
    | NoDirective
      /** getattr finds no method of that name (AttributeError). */
    | NoSuchMethod(name: string)

  /** What loading can change on the target: its fields, and the calls made to its methods. */
  datatype State = State(fields: map<string, Value>, calls: seq<Call>)

  /** The state loading stopped in, and the error that stopped it, if any. */
  datatype Outcome = Outcome(state: State, error: Option<LoadError>)

  /**
   * The field an assigning directive names: when the right-stripped directive ends
   * in "=", the text before that "=", right-stripped; None for a method directive.
   */
  function FieldName(d: string): (r: Option<string>)
    ensures r.Some? <==> |RStrip(d)| > 0 && RStrip(d)[|RStrip(d)| - 1] == '='
    ensures r.Some? ==> |r.value| < |d| && r.value == d[..|r.value|]
    ensures r.Some? ==> r.value == [] || !IsSpace(r.value[|r.value| - 1])
  {
    var t := RStrip(d);
    if |t| > 0 && t[|t| - 1] == '=' then Some(RStrip(t[..|t| - 1])) else None
  }

  /**
   * One child of the data: decode it, then assign the field its directive names or
   * log a call of the method named by the directive as it stands (not stripped).
   */
  function ApplyOne(cfg: Config, handlers: set<string>, refObj: Value, st: State, item: Item): (r: Result<State, LoadError>)
    ensures r.Ok? ==> item.Node? && item.entry.directive.Some?
    ensures r.Ok? && FieldName(item.entry.directive.value).Some? ==>
      var name := FieldName(item.entry.directive.value).value;
      name in r.value.fields && Decode(cfg, item.entry.tag, item.entry.children) == Ok(r.value.fields[name])
    ensures r.Ok? ==> r.value.calls == st.calls || (|r.value.calls| == |st.calls| + 1 && r.value.calls[..|st.calls|] == st.calls)
  {
    match item
    case Leaf(_) => Err(Undecodable(NotAnEntry))
    case Node(e) =>
      match Decode(cfg, e.tag, e.children)
      case Err(err) => Err(Undecodable(err))
      case Ok(v) =>
        match e.directive
        case None => Err(NoDirective)
        case Some(d) =>
          match FieldName(d)
          case Some(name) => Ok(st.(fields := st.fields[name := v]))
          case None =>
            if d in handlers then Ok(st.(calls := st.calls + [Call(d, v, refObj)]))
            else Err(NoSuchMethod(d))
  }

  /** loadFromSaveData's loop: the children in order, the first failure stopping it with what was done so far. */
  function ApplyAll(cfg: Config, handlers: set<string>, refObj: Value, st: State, items: seq<Item>): (o: Outcome)
  {
    if items == [] then Outcome(st, None)
    else
      var n := |items| - 1;
      Continue(cfg, handlers, refObj, ApplyAll(cfg, handlers, refObj, st, items[..n]), items[n])
  }

  /** One turn of the loop: nothing more once a child has failed. */
  function Continue(cfg: Config, handlers: set<string>, refObj: Value, prior: Outcome, item: Item): (o: Outcome)
  {
    if prior.error.Some? then prior
    else
      match ApplyOne(cfg, handlers, refObj, prior.state, item)
      case Ok(next) => Outcome(next, None)
      case Err(err) => Outcome(prior.state, Some(err))
  }

  /** The field a child assigns, if its directive is an assigning one. */
  function ItemField(item: Item): Option<string> {
    if item.Node? && item.entry.directive.Some? then FieldName(item.entry.directive.value) else None
  }

  /** The field names the directives of a data list assign. */
  function AssignedNames(items: seq<Item>): set<string>
  {
    if items == [] then {}
    else
      var n := |items| - 1;
      var f := ItemField(items[n]);
      AssignedNames(items[..n]) + if f.Some? then {f.value} else {}
  }

  /** The directive SaveableWrapper writes its data field under. */
  const DataDirective: string := "data = "

  /** The methods SaveableObject defines, which every subclass inherits and getattr finds. */
  const SaveableMethods: set<string> :=
    {"getSaveData", "loadFromSaveData", "reconstructObject", "reconstructList", "reconstructTuple",
     "reconstructDictionary"}

  /** A restorable object: its class, the methods it defines, its fields and its log of loading calls. */
  class SaveableObject {
    const className: string
    const handlers: set<string>
    var fields: map<string, Value>
    var calls: seq<Call>

    function Current(): State
      reads this
    {
      State(fields, calls)
    }

    /**
     * An instance of a subclass defining the given methods, with its initial fields,
     * before any loading: it also has the methods SaveableObject defines.
     */
    constructor (className: string, methods: set<string>, fields: map<string, Value>)
      ensures this.className == className && this.handlers == SaveableMethods + methods
      ensures this.fields == fields && this.calls == []
    {
      this.className := className;
      this.handlers := SaveableMethods + methods;
      this.fields := fields;
      this.calls := [];
    }

    /** The base getSaveData: a fresh record tagged with the object's class name and no children. */
    method GetSaveData() returns (result: GameSaveEntry)
      ensures fresh(result)
      ensures result.Snapshot() == Entry(className, None, [])
    {
      result := new GameSaveEntry();
      result.objType := className;
    }

    /**
     * loadFromSaveData(data, refObj): nothing when data is None; otherwise each child
     * in turn, the object left as the first failing child found it.
     */
    method LoadFromSaveData(saver: GameSaver, host: Host, data: Option<Entry>, refObj: Value) returns (err: Option<LoadError>)
      modifies this
      ensures data.None? ==> fields == old(fields) && calls == old(calls) && err.None?
      ensures data.Some? ==>
        var o := ApplyAll(saver.ConfigWith(host), handlers, refObj, old(Current()), data.value.children);
        Current() == o.state && err == o.error
    {
      err := None;
      if data.None? {
        return;
      }
      var items := data.value.children;
      ghost var cfg := saver.ConfigWith(host);
      ghost var start := Current();
      var k := 0;
      while k < |items|
        invariant 0 <= k <= |items|
        invariant saver.ConfigWith(host) == cfg
        invariant ApplyAll(cfg, handlers, refObj, start, items[..k]) == Outcome(Current(), None)
      {
        ApplyNext(cfg, handlers, refObj, start, items, k);
        var datum := items[k];
        if datum.Leaf? {
          err := Some(Undecodable(NotAnEntry));
          ApplyErrorStays(cfg, handlers, refObj, start, items, k + 1);
          return;
        }
        var newVal := ReconstructObject(saver, host, datum.entry.children, datum.entry.tag);
        if newVal.Err? {
          err := Some(Undecodable(newVal.error));
          ApplyErrorStays(cfg, handlers, refObj, start, items, k + 1);
          return;
        }
        match datum.entry.directive {
          case None =>
            err := Some(NoDirective);
            ApplyErrorStays(cfg, handlers, refObj, start, items, k + 1);
            return;
          case Some(d) =>
            var name := FieldName(d);
            if name.Some? {
              fields := fields[name.value := newVal.value];
            } else if d in handlers {
              calls := calls + [Call(d, newVal.value, refObj)];
            } else {
              err := Some(NoSuchMethod(d));
              ApplyErrorStays(cfg, handlers, refObj, start, items, k + 1);
              return;
            }
        }
        k := k + 1;
      }
      assert items[..k] == items;
    }

    /**
     * reconstructObject(items, tag): the registered keys in order until isSubclass
     * accepts one, then the container tags, then the scalar branches.
     */
    method ReconstructObject(saver: GameSaver, host: Host, items: seq<Item>, tag: string) returns (r: Result<Value, DecodeError>)
      decreases ItemsSize(items), 2
      ensures r == Decode(saver.ConfigWith(host), tag, items)
    {
      var cfg := saver.ConfigWith(host);
      var keys := saver.specialTypes;
      var notFoundInSpecialTypes := true;
      var i := 0;
      r := Ok(VNone);
      while i < |keys| && notFoundInSpecialTypes
        invariant 0 <= i <= |keys|
        invariant notFoundInSpecialTypes && i > 0 ==> cfg.isSubclass.Some?
        invariant notFoundInSpecialTypes && cfg.isSubclass.Some? ==>
          forall j :: 0 <= j < i ==> !cfg.isSubclass.value(tag, keys[j].0)
        invariant !notFoundInSpecialTypes ==> r == Decode(cfg, tag, items)
      {
        match cfg.isSubclass {
          case None =>
            MissingPredicateFails(cfg, tag, items);
            return Err(NoSubclassPredicate);
          case Some(isSubclass) =>
            if isSubclass(tag, keys[i].0) {
              r := Ok(keys[i].1.restoreFn(Collapse(items)));
              RegistryFirst(cfg, tag, items, i);
              notFoundInSpecialTypes := false;
            }
        }
        i := i + 1;
      }
      if notFoundInSpecialTypes {
        NoKeyMatches(cfg, tag);
        if tag == "list" {
          r := ReconstructList(saver, host, items);
        } else if tag == "tuple" {
          r := ReconstructTuple(saver, host, items);
        } else if tag == "dict" {
          r := ReconstructDictionary(saver, host, items);
        } else {
          r := DecodeScalar(host, tag, Collapse(items));
        }
      }
    }

    /** reconstructList: the elements decoded in order, as a list. */
    method ReconstructList(saver: GameSaver, host: Host, listData: seq<Item>) returns (r: Result<Value, DecodeError>)
      decreases ItemsSize(listData), 1
      ensures r == DecodeList(saver.ConfigWith(host), listData)
    {
      var elems := ReconstructElements(saver, host, listData);
      r := if elems.Ok? then Ok(VList(elems.value)) else Err(elems.error);
    }

    /** reconstructTuple: the same loop as reconstructList, its result made a tuple. */
    method ReconstructTuple(saver: GameSaver, host: Host, listData: seq<Item>) returns (r: Result<Value, DecodeError>)
      decreases ItemsSize(listData), 1
      ensures r == DecodeTuple(saver.ConfigWith(host), listData)
    {
      var elems := ReconstructElements(saver, host, listData);
      r := if elems.Ok? then Ok(VTuple(elems.value)) else Err(elems.error);
    }

    /** The loop reconstructList and reconstructTuple share: one value per element, appended in order. */
    method ReconstructElements(saver: GameSaver, host: Host, listData: seq<Item>) returns (r: Result<seq<Value>, DecodeError>)
      decreases ItemsSize(listData), 0
      ensures r == DecodeElems(saver.ConfigWith(host), listData)
    {
      var result: seq<Value> := [];
      var k := 0;
      while k < |listData|
        invariant 0 <= k <= |listData|
        invariant DecodeElems(saver.ConfigWith(host), listData[..k]) == Ok(result)
      {
        ItemsSizeSplit(listData, k);
        assert listData[..k + 1][..k] == listData[..k];
        var element := listData[k];
        if element.Leaf? {
          ElemsErrorStays(saver.ConfigWith(host), listData, k + 1);
          return Err(NotAnEntry);
        }
        var v := ReconstructObject(saver, host, element.entry.children, element.entry.tag);
        if v.Err? {
          ElemsErrorStays(saver.ConfigWith(host), listData, k + 1);
          return Err(v.error);
        }
        result := result + [v.value];
        k := k + 1;
      }
      assert listData[..k] == listData;
      r := Ok(result);
    }

    /** reconstructDictionary: each element decoded and its [0] assigned its [1], in order. */
    method ReconstructDictionary(saver: GameSaver, host: Host, listData: seq<Item>) returns (r: Result<Value, DecodeError>)
      decreases ItemsSize(listData), 1
      ensures r == DecodeDict(saver.ConfigWith(host), listData)
    {
      var result: seq<(Value, Value)> := [];
      ghost var kvs: seq<(Value, Value)> := [];
      var k := 0;
      while k < |listData|
        invariant 0 <= k <= |listData|
        invariant DecodePairs(saver.ConfigWith(host), listData[..k]) == Ok(kvs)
        invariant result == DictFromPairs(kvs)
      {
        ItemsSizeSplit(listData, k);
        assert listData[..k + 1][..k] == listData[..k];
        var element := listData[k];
        if element.Leaf? {
          PairsErrorStays(saver.ConfigWith(host), listData, k + 1);
          return Err(NotAnEntry);
        }
        var pair := ReconstructObject(saver, host, element.entry.children, element.entry.tag);
        if pair.Err? {
          PairsErrorStays(saver.ConfigWith(host), listData, k + 1);
          return Err(pair.error);
        }
        var kv := AsPair(pair.value);
        if kv.None? {
          PairsErrorStays(saver.ConfigWith(host), listData, k + 1);
          return Err(NotAPair);
        }
        if !Hashable(kv.value.0) {
          PairsErrorStays(saver.ConfigWith(host), listData, k + 1);
          return Err(Unhashable(kv.value.0));
        }
        result := Put(result, kv.value.0, kv.value.1);
        kvs := kvs + [kv.value];
        k := k + 1;
      }
      assert listData[..k] == listData;
      r := Ok(VDict(result));
    }
  }

  /**
   * SaveableWrapper, the stock subclass that holds one value in its data field: the
   * SaveableObject it is, of class "SaveableWrapper", with only the inherited methods.
   */
  class SaveableWrapper {
    const base: SaveableObject

    ghost predicate Valid()
      reads this, base
    {
      && base.className == "SaveableWrapper" && base.handlers == SaveableMethods
      && "data" in base.fields
    }

    /** SaveableWrapper(): self.data = None. */
    constructor ()
      ensures Valid() && fresh(base)
      ensures base.fields == map["data" := VNone] && base.calls == []
    {
      base := new SaveableObject("SaveableWrapper", {}, map["data" := VNone]);
    }

    /** getSaveData overridden: a GameSaveEntry holding the data field under the directive "data = ". */
    method GetSaveData(saver: GameSaver, host: Host) returns (result: GameSaveEntry)
      requires Valid() && SaveShrinks(saver.ConfigWith(host))
      ensures fresh(result)
      ensures result.Snapshot() ==
        Entry(EntryClassName, None, [Node(Encode(saver.ConfigWith(host), Some(DataDirective), base.fields["data"]))])
    {
      result := new GameSaveEntry();
      result.AddItem(saver, host, Some(DataDirective), base.fields["data"], None);
    }

    /** The inherited loadFromSaveData; loading never removes the data field. */
    method LoadFromSaveData(saver: GameSaver, host: Host, data: Option<Entry>, refObj: Value) returns (err: Option<LoadError>)
      requires Valid()
      modifies base
      ensures Valid()
      ensures data.None? ==> base.fields == old(base.fields) && base.calls == old(base.calls) && err.None?
      ensures data.Some? ==>
        var o := ApplyAll(saver.ConfigWith(host), SaveableMethods, refObj, old(base.Current()), data.value.children);
        base.Current() == o.state && err == o.error
    {
      err := base.LoadFromSaveData(saver, host, data, refObj);
      if data.Some? {
        ApplyKeepsFields(saver.ConfigWith(host), SaveableMethods, refObj, old(base.Current()), data.value.children, "data");
      }
    }
  }

  /** When no registered key accepts the tag, the decoder goes on to the built-in tags. */
  lemma NoKeyMatches(cfg: Config, tag: string)
    requires |cfg.types| > 0 ==> cfg.isSubclass.Some?
    requires cfg.isSubclass.Some? ==> forall j :: 0 <= j < |cfg.types| ==> !cfg.isSubclass.value(tag, cfg.types[j].0)
    ensures FindRestoreType(cfg, tag) == Unmatched
  {
  }

  /** Once a prefix of the elements fails, the whole list fails the same way. */
  lemma {:induction false} ElemsErrorStays(cfg: Config, items: seq<Item>, k: nat)
    requires k <= |items| && DecodeElems(cfg, items[..k]).Err?
    ensures DecodeElems(cfg, items) == DecodeElems(cfg, items[..k])
    decreases |items|
  {
    if k < |items| {
      var n := |items| - 1;
      assert items[..n][..k] == items[..k];
      ElemsErrorStays(cfg, items[..n], k);
    } else {
      assert items[..k] == items;
    }
  }

  /** Once a prefix of the items fails, the whole dict fails the same way. */
  lemma {:induction false} PairsErrorStays(cfg: Config, items: seq<Item>, k: nat)
    requires k <= |items| && DecodePairs(cfg, items[..k]).Err?
    ensures DecodePairs(cfg, items) == DecodePairs(cfg, items[..k])
    decreases |items|
  {
    if k < |items| {
      var n := |items| - 1;
      assert items[..n][..k] == items[..k];
      PairsErrorStays(cfg, items[..n], k);
    } else {
      assert items[..k] == items;
    }
  }

  /** The loop's next turn, in terms of the outcome so far. */
  lemma ApplyNext(cfg: Config, handlers: set<string>, refObj: Value, st: State, items: seq<Item>, k: nat)
    requires k < |items|
    ensures ApplyAll(cfg, handlers, refObj, st, items[..k + 1]) ==
      Continue(cfg, handlers, refObj, ApplyAll(cfg, handlers, refObj, st, items[..k]), items[k])
  {
    assert items[..k + 1][..k] == items[..k];
  }

  /** Once a prefix of the children fails, loading the rest changes nothing. */
  lemma {:induction false} ApplyErrorStays(cfg: Config, handlers: set<string>, refObj: Value, st: State, items: seq<Item>, k: nat)
    requires k <= |items| && ApplyAll(cfg, handlers, refObj, st, items[..k]).error.Some?
    ensures ApplyAll(cfg, handlers, refObj, st, items) == ApplyAll(cfg, handlers, refObj, st, items[..k])
    decreases |items|
  {
    if k < |items| {
      var n := |items| - 1;
      assert items[..n][..k] == items[..k];
      ApplyErrorStays(cfg, handlers, refObj, st, items[..n], k);
    } else {
      assert items[..k] == items;
    }
  }

  /**
   * The assigning directives: a field name that does not end in whitespace, any
   * whitespace, "=", and any whitespace after it ("x =", "x = ", "x=") name that field.
   */
  lemma AssignDirective(name: string, before: string, after: string)
    requires name == [] || !IsSpace(name[|name| - 1])
    requires forall i :: 0 <= i < |before| ==> IsSpace(before[i])
    requires forall i :: 0 <= i < |after| ==> IsSpace(after[i])
    ensures FieldName(name + before + "=" + after) == Some(name)
  {
    var t := name + before + "=";
    RStripPadding(t, after);
    assert t[..|t| - 1] == name + before;
    RStripPadding(name, before);
  }

  /** A directive that does not end in "=" once right-stripped names a method, used unstripped. */
  lemma MethodDirective(cfg: Config, handlers: set<string>, refObj: Value, st: State, e: Entry)
    requires e.directive.Some? && FieldName(e.directive.value).None?
    requires Decode(cfg, e.tag, e.children).Ok?
    ensures e.directive.value in handlers ==>
      ApplyOne(cfg, handlers, refObj, st, Node(e)) ==
        Ok(st.(calls := st.calls + [Call(e.directive.value, Decode(cfg, e.tag, e.children).value, refObj)]))
    ensures e.directive.value !in handlers ==>
      ApplyOne(cfg, handlers, refObj, st, Node(e)) == Err(NoSuchMethod(e.directive.value))
  {
  }

  /**
   * Loading touches no other field: a field no directive of the data names keeps
   * its presence and its value, whether loading succeeds or stops part-way.
   */
  lemma {:induction false} ApplyUntouched(cfg: Config, handlers: set<string>, refObj: Value, st: State, items: seq<Item>, key: string)
    requires key !in AssignedNames(items)
    ensures var o := ApplyAll(cfg, handlers, refObj, st, items);
      (key in o.state.fields <==> key in st.fields) &&
      (key in st.fields ==> o.state.fields[key] == st.fields[key])
  {
    if items != [] {
      var n := |items| - 1;
      ApplyUntouched(cfg, handlers, refObj, st, items[..n], key);
      var prior := ApplyAll(cfg, handlers, refObj, st, items[..n]);
      OneUntouched(cfg, handlers, refObj, prior.state, items[n], key);
    }
  }

  /** Loading assigns and calls but never deletes: a field present before is present after. */
  lemma {:induction false} ApplyKeepsFields(cfg: Config, handlers: set<string>, refObj: Value, st: State, items: seq<Item>, key: string)
    requires key in st.fields
    ensures key in ApplyAll(cfg, handlers, refObj, st, items).state.fields
    decreases |items|
  {
    if items != [] {
      var n := |items| - 1;
      var prior := ApplyAll(cfg, handlers, refObj, st, items[..n]);
      ApplyKeepsFields(cfg, handlers, refObj, st, items[..n], key);
      OneKeepsFields(cfg, handlers, refObj, prior.state, items[n], key);
    }
  }

  lemma OneKeepsFields(cfg: Config, handlers: set<string>, refObj: Value, st: State, item: Item, key: string)
    requires key in st.fields
    ensures var r := ApplyOne(cfg, handlers, refObj, st, item);
      r.Ok? ==> key in r.value.fields
  {
  }

  lemma OneUntouched(cfg: Config, handlers: set<string>, refObj: Value, st: State, item: Item, key: string)
    requires ItemField(item) != Some(key)
    ensures var r := ApplyOne(cfg, handlers, refObj, st, item);
      r.Ok? ==> (
        && (key in r.value.fields <==> key in st.fields)
        && (key in st.fields ==> r.value.fields[key] == st.fields[key]))
  {
  }

  /**
   * Method directives are called in order: the calls made while loading extend the
   * log, each with a method of the object, refObj, and a directive that assigns nothing.
   */
  lemma {:induction false} ApplyCallsAppended(cfg: Config, handlers: set<string>, refObj: Value, st: State, items: seq<Item>)
    ensures var o := ApplyAll(cfg, handlers, refObj, st, items);
      |st.calls| <= |o.state.calls| && o.state.calls[..|st.calls|] == st.calls &&
      forall i :: |st.calls| <= i < |o.state.calls| ==> NewCall(handlers, refObj, o.state.calls[i])
  {
    if items != [] {
      var n := |items| - 1;
      ApplyCallsAppended(cfg, handlers, refObj, st, items[..n]);
      var prior := ApplyAll(cfg, handlers, refObj, st, items[..n]);
      OneCall(cfg, handlers, refObj, prior.state, items[n]);
    }
  }

  /** A call loading can make: to a method of the object, with refObj, named by a directive that assigns nothing. */
  predicate NewCall(handlers: set<string>, refObj: Value, c: Call) {
    c.handler in handlers && c.ref == refObj && FieldName(c.handler).None?
  }

  lemma OneCall(cfg: Config, handlers: set<string>, refObj: Value, st: State, item: Item)
    ensures var r := ApplyOne(cfg, handlers, refObj, st, item);
      r.Ok? ==> (
        || r.value.calls == st.calls
        || (r.value.calls == st.calls + [r.value.calls[|st.calls|]] && NewCall(handlers, refObj, r.value.calls[|st.calls|])))
  {
  }

  /**
   * The children are applied one after another: loading a + b is loading a, then,
   * unless that failed, loading b from where a left the object.
   */
  lemma {:induction false} ApplySequential(cfg: Config, handlers: set<string>, refObj: Value, st: State, a: seq<Item>, b: seq<Item>)
    ensures var first := ApplyAll(cfg, handlers, refObj, st, a);
      ApplyAll(cfg, handlers, refObj, st, a + b) ==
        if first.error.Some? then first else ApplyAll(cfg, handlers, refObj, first.state, b)
    decreases |b|
  {
    if b == [] {
      assert a + b == a;
    } else {
      var n := |b| - 1;
      var ab := a + b;
      ApplySequential(cfg, handlers, refObj, st, a, b[..n]);
      assert ab[..|ab| - 1] == a + b[..n];
      assert ab[|ab| - 1] == b[n];
    }
  }

  /**
   * A SaveableWrapper round trip: the record getSaveData builds for a portable
   * value, written and read back, restores that value into the data field of a
   * wrapper, and nothing else changes.
   */
  lemma WrapperRoundTrip(cfg: Config, handlers: set<string>, v: Value, rest: string, refObj: Value, st: State)
    requires Unclaimed(cfg) && SaveShrinks(cfg) && Portable(cfg, v)
    ensures var e := Entry(EntryClassName, None, [Node(Encode(cfg, Some(DataDirective), v))]);
      && ParseEntry(Serialize(e) + rest) == Ok((ReadBack(e), rest))
      && ApplyAll(cfg, handlers, refObj, st, ReadBack(e).children) == Outcome(st.(fields := st.fields["data" := v]), None)
  {
    var inner := Encode(cfg, Some(DataDirective), v);
    var e := Entry(EntryClassName, None, [Node(inner)]);
    WrapperWritten(cfg, v, rest);
    ReadBackSingle(Node(inner));
    DataApplied(cfg, handlers, v, refObj, st);
  }

  lemma ReadBackSingle(item: Item)
    ensures ReadBackSeq([item]) == [ReadBackItem(item)]
  {
    assert [item][1..] == [];
  }

  /** The wrapper's record survives the file. */
  lemma WrapperWritten(cfg: Config, v: Value, rest: string)
    requires Unclaimed(cfg) && SaveShrinks(cfg) && Portable(cfg, v)
    ensures var e := Entry(EntryClassName, None, [Node(Encode(cfg, Some(DataDirective), v))]);
      ParseEntry(Serialize(e) + rest) == Ok((ReadBack(e), rest))
  {
    var d := DataDirective;
    var e := Entry(EntryClassName, None, [Node(Encode(cfg, Some(d), v))]);
    DataDirectiveFits();
    PortableWritable(cfg, Some(d), v);
    assert Writable(e) by {
      assert '\n' !in EntryClassName;
      assert '\n' !in DirectiveText(None);
    }
    Codec.RoundTrip(e, rest);
  }

  /** The read-back "data = " record of a portable value assigns that value to the data field. */
  lemma DataApplied(cfg: Config, handlers: set<string>, v: Value, refObj: Value, st: State)
    requires Unclaimed(cfg) && SaveShrinks(cfg) && Portable(cfg, v)
    ensures ApplyAll(cfg, handlers, refObj, st, [Node(ReadBack(Encode(cfg, Some(DataDirective), v)))]) ==
      Outcome(st.(fields := st.fields["data" := v]), None)
  {
    var d := DataDirective;
    var back := ReadBack(Encode(cfg, Some(d), v));
    DecodeEncode(cfg, Some(d), v);
    DataDirectiveFits();
    assert back.directive == Some(d);
    assert [Node(back)][..0] == [];
  }

  /** The wrapper's directive fits on one line and assigns the data field. */
  lemma DataDirectiveFits()
    ensures '\n' !in DataDirective && FieldName(DataDirective) == Some("data")
  {
    AssignDirective("data", " ", " ");
    assert "data" + " " + "=" + " " == DataDirective;
  }
}

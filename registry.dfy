/**
 * The special-type registry: host types the engine has no built-in handling for,
 * each with a save function (value to something saveable) and a restore function
 * (saved data back to a value), kept in registration order, plus the host's
 * isSubclass callback that the decoder asks which registered type a tag belongs to.
 */
module Registry {
  import opened Wrappers
  import opened Tree
  import opened Values
  import opened Dicts

  /**
   * What a restore function receives: the single element of a one-element data
   * list, or the whole data list otherwise ("if len(newVal) == 1: newVal = newVal[0]").
   */
  datatype Payload = One(item: Item) | Many(items: seq<Item>)

  /** Turns a payload back into a data list, as the GameSaveEntry branch of the decoder does. */
  function Expand(p: Payload): seq<Item> {
    match p
    case One(item) => [item]
    case Many(items) => items
  }

  /** The decoder's collapse of a one-element data list; expanding it again loses nothing. */
  function Collapse(items: seq<Item>): (p: Payload)
    ensures Expand(p) == items
    ensures p.One? <==> |items| == 1
  {
    if |items| == 1 then One(items[0]) else Many(items)
  }

  /** A SpecialTypeEntry: the restore function and the save function of one type. */
  datatype SpecialType = SpecialType(restoreFn: Payload -> Value, saveFn: Value -> Value)

  /** The registry dictionary, as its (type name, entry) items in insertion order. */
  type SpecialTypes = seq<(string, SpecialType)>

  /** Everything the encoder and the decoder consult besides their arguments. */
  datatype Config = Config(
    types: SpecialTypes,
    isSubclass: Option<(string, string) -> bool>,
    host: Host)

  /** The outcome of the decoder's search of the registry. */
  datatype Lookup = Matched(index: nat) | Unmatched | NoPredicate

  /** The first key at or after `from` that `isSubclass(tag, key)` accepts. */
  function FirstMatch(isSubclass: (string, string) -> bool, tag: string, types: SpecialTypes, from: nat): (r: Lookup)
    requires from <= |types|
    decreases |types| - from
    ensures !r.NoPredicate?
    ensures r.Matched? ==> from <= r.index < |types| && isSubclass(tag, types[r.index].0)
    ensures r.Matched? ==> forall j :: from <= j < r.index ==> !isSubclass(tag, types[j].0)
    ensures r.Unmatched? ==> forall j :: from <= j < |types| ==> !isSubclass(tag, types[j].0)
  {
    if from == |types| then Unmatched
    else if isSubclass(tag, types[from].0) then Matched(from)
    else FirstMatch(isSubclass, tag, types, from + 1)
  }

  /**
   * The decoder's registry search: keys in registration order, the first one the
   * host's isSubclass accepts wins; calling an unset isSubclass raises.
   */
  function FindRestoreType(cfg: Config, tag: string): (r: Lookup)
    ensures r.NoPredicate? <==> |cfg.types| > 0 && cfg.isSubclass.None?
    ensures r.Matched? ==> r.index < |cfg.types| && cfg.isSubclass.Some?
    ensures r.Matched? ==> cfg.isSubclass.value(tag, cfg.types[r.index].0)
    ensures r.Matched? ==> forall j :: 0 <= j < r.index ==> !cfg.isSubclass.value(tag, cfg.types[j].0)
    ensures r.Unmatched? && cfg.isSubclass.Some? ==>
      forall j :: 0 <= j < |cfg.types| ==> !cfg.isSubclass.value(tag, cfg.types[j].0)
    ensures r.Unmatched? && cfg.isSubclass.None? ==> |cfg.types| == 0
  {
    if |cfg.types| == 0 then Unmatched
    else match cfg.isSubclass
      case None => NoPredicate
      case Some(p) => FirstMatch(p, tag, cfg.types, 0)
  }

  /** The encoder's registry search: the first key the value is an instance of. */
  function FindSaveType(cfg: Config, cls: string): (r: Option<nat>)
    ensures r.Some? ==> r.value < |cfg.types| && cfg.host.instanceOf(cls, cfg.types[r.value].0)
    ensures r.Some? ==> forall j :: 0 <= j < r.value ==> !cfg.host.instanceOf(cls, cfg.types[j].0)
    ensures r.None? ==> forall j :: 0 <= j < |cfg.types| ==> !cfg.host.instanceOf(cls, cfg.types[j].0)
  {
    match FirstMatch(cfg.host.instanceOf, cls, cfg.types, 0)
    case Matched(i) => Some(i)
    case _ => None
  }

  /** The search only looks at the keys, so two registries with the same keys in the same order agree. */
  lemma {:induction false} FirstMatchSameKeys(p: (string, string) -> bool, tag: string, t1: SpecialTypes, t2: SpecialTypes, from: nat)
    requires |t1| == |t2| && from <= |t1|
    requires forall i :: 0 <= i < |t1| ==> t1[i].0 == t2[i].0
    ensures FirstMatch(p, tag, t1, from) == FirstMatch(p, tag, t2, from)
    decreases |t1| - from
  {
    if from < |t1| && !p(tag, t1[from].0) {
      FirstMatchSameKeys(p, tag, t1, t2, from + 1);
    }
  }

  /**
   * Registering a type again replaces its functions without moving it: the decoder
   * picks the same position for every tag as before.
   */
  lemma ReRegisterKeepsPriority(cfg: Config, key: string, entry: SpecialType, tag: string)
    requires UniqueKeys(cfg.types) && HasKey(cfg.types, key)
    ensures FindRestoreType(cfg.(types := Put(cfg.types, key, entry)), tag) == FindRestoreType(cfg, tag)
  {
    var t2 := Put(cfg.types, key, entry);
    if cfg.isSubclass.Some? {
      FirstMatchSameKeys(cfg.isSubclass.value, tag, cfg.types, t2, 0);
    }
  }

  /**
   * The encoder terminates: every registered save function, applied to a value that
   * reaches the registry search and is an instance of its type, returns a smaller value.
   */
  ghost predicate SaveShrinks(cfg: Config) {
    forall v: Value, i :: FallsBack(v) && 0 <= i < |cfg.types| && cfg.host.instanceOf(TypeName(v), cfg.types[i].0) ==>
      Size(cfg.types[i].1.saveFn(v)) < Size(v)
  }

  /** The tags the engine handles itself. */
  const BuiltinTags: set<string> :=
    {"NoneType", "None", "bool", "int", "float", "str", "bytes", "list", "tuple", "dict", EntryClassName}

  /**
   * A registry that leaves the built-in types alone: no registered key matches a
   * built-in class on either side, and isSubclass is set whenever a type is registered.
   */
  ghost predicate Unclaimed(cfg: Config) {
    && (|cfg.types| > 0 ==> cfg.isSubclass.Some?)
    && (forall i, t :: 0 <= i < |cfg.types| && t in BuiltinTags ==> !cfg.host.instanceOf(t, cfg.types[i].0))
    && (forall i, t :: 0 <= i < |cfg.types| && t in BuiltinTags && cfg.isSubclass.Some? ==>
          !cfg.isSubclass.value(t, cfg.types[i].0))
  }

  lemma BuiltinUnmatched(cfg: Config, tag: string)
    requires Unclaimed(cfg) && tag in BuiltinTags
    ensures FindRestoreType(cfg, tag) == Unmatched
    ensures FindSaveType(cfg, tag) == None
  {
  }

  /**
   * GameSaver's class-level state: the special-type dictionary and the isSubclass
   * callback. The source keeps them as static attributes of a class that is never
   * instantiated; the model holds them in one object.
   */
  class GameSaver {
    var specialTypes: SpecialTypes
    var isSubclass: Option<(string, string) -> bool>

    ghost predicate Valid()
      reads this
    {
      UniqueKeys(specialTypes)
    }

    /** The state at import time: an empty dictionary and no callback. */
    constructor ()
      ensures Valid() && specialTypes == [] && isSubclass == None
    {
      specialTypes := [];
      isSubclass := None;
    }

    function ConfigWith(host: Host): Config
      reads this
    {
      Config(specialTypes, isSubclass, host)
    }

    /** addSpecialType: installs or replaces the entry for `key`. */
    method AddSpecialType(key: string, restoreFn: Payload -> Value, saveFn: Value -> Value)
      requires Valid()
      modifies this
      ensures Valid()
      ensures specialTypes == Put(old(specialTypes), key, SpecialType(restoreFn, saveFn))
      ensures isSubclass == old(isSubclass)
    {
      specialTypes := Put(specialTypes, key, SpecialType(restoreFn, saveFn));
    }

    /** destroy: forgets every registered type and the isSubclass callback. */
    method Destroy()
      modifies this
      ensures Valid() && specialTypes == [] && isSubclass == None
    {
      specialTypes := [];
      isSubclass := None;
    }
  }
}

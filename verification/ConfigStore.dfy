/** `_deep_merge` and the `get_*_config` methods on dictionaries that are changed in place. */
module ConfigStore {
  import opened ConfigTree

  /** What a dictionary holds under a key. */
  datatype Entry = Plain(v: Scalar) | Nested(d: Dictionary)

  /** A dictionary. `value` is what it amounts to, `repr` the dictionaries it is made of. */
  class Dictionary {
    var entries: map<string, Entry>
    ghost var value: Dict
    ghost var repr: set<Dictionary>

    /** One level of the tree: `value` and `repr` are those of the entries. */
    ghost predicate Level()
      reads this, set k | k in entries && entries[k].Nested? :: entries[k].d
    {
      && this in repr && value.m.Keys == entries.Keys
      && forall k :: k in entries ==>
           match entries[k]
           case Plain(v) => value.m[k] == Leaf(v)
           case Nested(d) => value.m[k] == d.value && d in repr && d.repr < repr && this !in d.repr
    }

    /** No two entries share a dictionary. */
    ghost predicate Apart()
      reads this, set k | k in entries && entries[k].Nested? :: entries[k].d
    {
      forall j, k :: j in entries && k in entries && j != k && entries[j].Nested? && entries[k].Nested? ==>
        entries[j].d.repr !! entries[k].d.repr
    }

    ghost predicate Valid()
      reads this, repr
      decreases repr
    {
      && this in repr
      && (forall k :: k in entries && entries[k].Nested? ==> entries[k].d in repr)
      && Level() && Apart()
      && forall k :: k in entries && entries[k].Nested? ==> entries[k].d.Valid()
    }

    constructor ()
      ensures Valid() && fresh(repr) && entries == map[] && value == Node(map[]) && repr == {this}
    {
      entries, value, repr := map[], Node(map[]), {this};
    }

    /** `d[k] = v`. */
    method SetPlain(k: string, v: Scalar)
      requires Valid()
      modifies this
      ensures Valid() && repr == old(repr) && entries == old(entries)[k := Plain(v)]
      ensures value == Node(old(value).m[k := Leaf(v)])
    {
      entries := entries[k := Plain(v)];
      value := Node(value.m[k := Leaf(v)]);
    }

    /** `d[k] = e`: the dictionary itself, not a copy, is stored. */
    method SetNested(k: string, e: Dictionary)
      requires Valid() && e.Valid() && repr !! e.repr
      modifies this
      ensures Valid() && repr == old(repr) + e.repr && entries == old(entries)[k := Nested(e)]
      ensures value == Node(old(value).m[k := e.value])
    {
      entries := entries[k := Nested(e)];
      value := Node(value.m[k := e.value]);
      repr := repr + e.repr;
    }

    /** Valid, but for the entry under `k`, which has changed below. */
    ghost predicate OthersStand(k: string, child: Dictionary, before: set<Dictionary>)
      reads this, child, child.repr, set j | j in entries && j != k && entries[j].Nested? :: entries[j].d,
            set j, e | j in entries && j != k && entries[j].Nested? && e in entries[j].d.repr :: e
    {
      && this in repr && repr == before && value.m.Keys == entries.Keys
      && k in entries && entries[k] == Nested(child) && child in repr && child.Valid() && this !in child.repr
      && forall j :: j in entries && j != k ==>
           match entries[j]
           case Plain(v) => value.m[j] == Leaf(v)
           case Nested(d) =>
             && value.m[j] == d.value && d in repr && d.repr < repr && this !in d.repr && d.Valid()
             && d.repr !! child.repr
             && forall i :: i in entries && i != j && i != k && entries[i].Nested? ==> entries[i].d.repr !! d.repr
    }

    /** `value` and `repr` brought up to date with the entry under `k`. */
    ghost method Refresh(k: string, child: Dictionary)
      requires OthersStand(k, child, repr)
      modifies `value, `repr
      ensures Valid() && repr == old(repr) + child.repr && value == Node(old(value).m[k := child.value])
    {
      value := Node(value.m[k := child.value]);
      repr := repr + child.repr;
    }
  }

  /** `deepcopy`. */
  method DeepCopy(d: Dictionary) returns (c: Dictionary)
    requires d.Valid()
    ensures c.Valid() && fresh(c.repr) && c.value == d.value
    decreases d.repr
  {
    c := new Dictionary();
    var left := d.entries.Keys;
    while left != {}
      invariant left <= d.entries.Keys && c.value.m.Keys == d.entries.Keys - left
      invariant c.Valid() && fresh(c.repr)
      invariant forall k :: k in c.value.m ==> c.value.m[k] == d.value.m[k]
    {
      var k :| k in left;
      left := left - {k};
      match d.entries[k] {
        case Plain(v) =>
          c.SetPlain(k, v);
        case Nested(e) =>
          var f := DeepCopy(e);
          c.SetNested(k, f);
      }
    }
    assert c.value.m == d.value.m;
  }

  /** What the merge holds under a key of the override. */
  function MergedEntry(a: Dict, b: Dict, k: string): Tree
    requires k in b.m
  {
    if k in a.m && a.m[k].Node? && b.m[k].Node? then Merge(a.m[k], b.m[k]) else b.m[k]
  }

  ghost predicate BothNested(base: Dictionary, over: Dictionary, k: string)
    reads base, over
  {
    k in base.entries && base.entries[k].Nested? && k in over.entries && over.entries[k].Nested?
  }

  /** The dictionaries of the override that its key brings along. */
  ghost function Brought(over: Dictionary, k: string): set<Dictionary>
    reads over, if k in over.entries && over.entries[k].Nested? then {over.entries[k].d} else {}
  {
    if k in over.entries && over.entries[k].Nested? then over.entries[k].d.repr else {}
  }

  /** Two dictionaries under one key: the first is merged into. */
  method MergeChild(base: Dictionary, k: string, child: Dictionary, over: Dictionary)
    requires base.Valid() && k in base.entries && base.entries[k] == Nested(child)
    requires over.Valid() && base.repr !! over.repr
    modifies base, child.repr
    ensures base.Valid() && base.entries == old(base.entries) && child.repr <= old(child.repr) + over.repr
    ensures base.repr == old(base.repr) + child.repr
    ensures base.value == Node(old(base.value).m[k := Merge(old(child.value), over.value)])
    decreases over.repr, 4
  {
    ghost var before := base.repr;
    DeepMerge(child, over);
    assert base.OthersStand(k, child, before);
    base.Refresh(k, child);
  }

  /** One pass of the loop. */
  method MergeKey(base: Dictionary, over: Dictionary, k: string)
    requires base.Valid() && over.Valid() && k in over.entries && base !in over.repr
    requires base.repr !! Brought(over, k)
    requires BothNested(base, over, k) ==> base.entries[k].d.repr !! over.repr
    modifies base, if BothNested(base, over, k) then base.entries[k].d.repr else {}
    ensures base.Valid() && base.repr <= old(base.repr) + Brought(over, k)
    ensures base.value == Node(old(base.value).m[k := MergedEntry(old(base.value), over.value, k)])
    ensures forall j :: j != k ==> (j in base.entries <==> j in old(base.entries))
    ensures forall j :: j != k && j in base.entries ==> base.entries[j] == old(base.entries)[j]
    decreases over.repr, 1
  {
    match over.entries[k] {
      case Plain(v) => base.SetPlain(k, v);
      case Nested(e) =>
        if k in base.entries && base.entries[k].Nested? {
          MergeChild(base, k, base.entries[k].d, e);
        } else {
          base.SetNested(k, e);
        }
    }
  }

  /** The values part way through: the keys in `left` have not been merged yet. */
  ghost predicate ValuesUnderway(now: Dict, before: Dict, over: Dict, left: set<string>) {
    && left <= over.m.Keys && now.m.Keys == before.m.Keys + (over.m.Keys - left)
    && forall k :: k in now.m ==>
         now.m[k] == if k in over.m && k !in left then MergedEntry(before, over, k) else before.m[k]
  }

  lemma ValuesStep(now: Dict, before: Dict, over: Dict, left: set<string>, k: string)
    requires ValuesUnderway(now, before, over, left) && k in left
    ensures ValuesUnderway(Node(now.m[k := MergedEntry(now, over, k)]), before, over, left - {k})
  {
  }

  /** The dictionaries part way through: under a key in `left`, the base has its own. */
  ghost predicate Separate(base: Dictionary, own: set<Dictionary>, over: Dictionary, left: set<string>)
    requires base.Valid() && over.Valid()
    reads base, base.repr, over, over.repr
  {
    && base in own && own !! over.repr && base.repr <= own + over.repr
    && (forall k :: k in left ==> base.repr !! Brought(over, k))
    && (forall k :: k in left && k in base.entries && base.entries[k].Nested? ==> base.entries[k].d.repr <= own)
  }

  /** The keys after the first `k` are still apart from what `k` brings. */
  lemma StillSeparate(over: Dictionary, k: string, repr: set<Dictionary>, repr': set<Dictionary>, left: set<string>)
    requires over.Valid() && k in over.entries && repr' <= repr + Brought(over, k)
    requires forall j :: j in left ==> repr !! Brought(over, j)
    ensures forall j :: j in left && j != k ==> repr' !! Brought(over, j)
  {
  }

  method MergeNext(base: Dictionary, ghost own: set<Dictionary>, over: Dictionary, ghost left: set<string>, k: string)
    requires base.Valid() && over.Valid() && Separate(base, own, over, left) && k in left && k in over.entries
    modifies own
    ensures base.Valid() && over.Valid() && Separate(base, own, over, left - {k})
    ensures base.value == Node(old(base.value).m[k := MergedEntry(old(base.value), over.value, k)])
    ensures over.value == old(over.value) && over.entries == old(over.entries)
    decreases over.repr, 2
  {
    ghost var repr := base.repr;
    MergeKey(base, over, k);
    StillSeparate(over, k, repr, base.repr, left);
  }

  /** `_deep_merge`: the base is changed in place, and may come to hold dictionaries of the
      override, which is not changed. */
  method DeepMerge(base: Dictionary, over: Dictionary)
    requires base.Valid() && over.Valid() && base.repr !! over.repr
    modifies base.repr
    ensures base.Valid() && base.repr <= old(base.repr) + over.repr
    ensures base.value == Merge(old(base.value), over.value)
    decreases over.repr, 3
  {
    ghost var own, before, set_ := base.repr, base.value, over.value;
    var left := over.entries.Keys;
    while left != {}
      invariant base.Valid() && over.Valid() && Separate(base, own, over, left)
      invariant over.value == set_ && ValuesUnderway(base.value, before, set_, left)
    {
      var k :| k in left;
      ValuesStep(base.value, before, set_, left, k);
      MergeNext(base, own, over, left, k);
      left := left - {k};
    }
    assert base.value.m == Merge(before, over.value).m;
  }

  lemma MergeNothing(a: Dict)
    ensures Merge(a, Node(map[])) == a
  {
  }

  /** `get_quality_config` and its like: a copy of the defaults with what is stored merged in.
      Nothing is changed. Every dictionary of the result is new or one of those stored, none is of
      the defaults, so that a later change to it cannot reach them. */
  method GetConfig(defaults: Dictionary, stored: Dictionary) returns (config: Dictionary)
    requires defaults.Valid() && stored.Valid() && defaults.repr !! stored.repr
    ensures config.Valid() && config.value == Merge(defaults.value, stored.value)
    ensures config.repr !! defaults.repr && fresh(config.repr - stored.repr)
  {
    config := DeepCopy(defaults);
    if stored.entries != map[] {
      DeepMerge(config, stored);
    } else {
      MergeNothing(config.value);
    }
  }

  // ---------------------------------------------------------------------------
  // The extraction configuration and its legacy fields
  // ---------------------------------------------------------------------------

  datatype Strategy = NoStrategy | TwoPass | OnePassThinking | OnePassNoThinking | OtherStrategy(s: string)

  /** What a legacy strategy says, as an override. */
  function StrategyOverride(s: Strategy): Dict {
    match s
    case TwoPass => Node(map["mode" := Leaf(Text("two_pass"))])
    case OnePassThinking => OnePass(true)
    case OnePassNoThinking => OnePass(false)
    case _ => Node(map[])
  }

  function OnePass(thinking: bool): Dict {
    Node(map["mode" := Leaf(Text("one_pass")),
             "one_pass" := Node(map["thinking" := Leaf(Bool(thinking)), "structured" := Leaf(Bool(true))])])
  }

  function ModelOverride(model: string): Dict {
    if model == [] then Node(map[]) else Node(map["model" := Leaf(Text(model))])
  }

  /** `d[k][j] = v`. */
  method SetBelow(d: Dictionary, k: string, child: Dictionary, j: string, v: Scalar)
    requires d.Valid() && k in d.entries && d.entries[k] == Nested(child)
    modifies d, child
    ensures d.Valid() && d.repr == old(d.repr) && d.entries == old(d.entries)
    ensures child.value == Node(old(child.value).m[j := Leaf(v)])
    ensures d.value == Node(old(d.value).m[k := child.value])
  {
    ghost var repr := d.repr;
    child.SetPlain(j, v);
    assert d.OthersStand(k, child, repr);
    d.Refresh(k, child);
  }

  lemma OnePassMerged(a: Dict, k: string, child: Dict, thinking: bool)
    requires k == "one_pass" && k in a.m && a.m[k] == child
    ensures Merge(a, OnePass(thinking)).m == a.m
      ["mode" := Leaf(Text("one_pass"))]
      [k := Node(child.m["thinking" := Leaf(Bool(thinking))]["structured" := Leaf(Bool(true))])]
  {
    assert OnePass(thinking).m.Keys == {"mode", k};
    var inner := OnePass(thinking).m[k];
    assert inner.m == map["thinking" := Leaf(Bool(thinking)), "structured" := Leaf(Bool(true))];
    assert Merge(child, inner).m == child.m["thinking" := Leaf(Bool(thinking))]["structured" := Leaf(Bool(true))];
  }

  lemma Below(d: Dictionary, k: string, child: Dictionary)
    requires d.Valid() && k in d.entries && d.entries[k] == Nested(child)
    ensures k in d.value.m && d.value.m[k] == child.value
  {
  }

  /** The one-pass settings of a configuration, rewritten in place. */
  method SetOnePass(config: Dictionary, k: string, pass: Dictionary, thinking: bool)
    requires config.Valid() && k == "one_pass" && k in config.entries && config.entries[k] == Nested(pass)
    modifies config, pass
    ensures config.Valid() && config.repr == old(config.repr)
    ensures config.value == Merge(old(config.value), OnePass(thinking))
  {
    hide Merge, OnePass, Dictionary.Valid, Dictionary.Level, Dictionary.Apart;
    Below(config, k, pass);
    OnePassMerged(config.value, k, pass.value, thinking);
    config.SetPlain("mode", Text("one_pass"));
    SetBelow(config, k, pass, "thinking", Bool(thinking));
    SetBelow(config, k, pass, "structured", Bool(true));
  }

  /** `_apply_legacy_strategy`. */
  method ApplyLegacyStrategy(config: Dictionary, pass: Dictionary, s: Strategy)
    requires config.Valid() && "one_pass" in config.entries && config.entries["one_pass"] == Nested(pass)
    modifies config, pass
    ensures config.Valid() && config.repr == old(config.repr)
    ensures config.value == Merge(old(config.value), StrategyOverride(s))
  {
    match s {
      case TwoPass =>
        config.SetPlain("mode", Text("two_pass"));
        assert config.value.m == Merge(old(config.value), StrategyOverride(s)).m;
      case OnePassThinking => SetOnePass(config, "one_pass", pass, true);
      case OnePassNoThinking => SetOnePass(config, "one_pass", pass, false);
      case _ => MergeNothing(config.value);
    }
  }

  /** The legacy fields of a configuration that stores nothing else. */
  method LegacyConfig(config: Dictionary, model: string, strategy: Strategy)
    requires config.Valid() && "one_pass" in config.value.m && config.value.m["one_pass"].Node?
    modifies config.repr
    ensures config.Valid() && config.repr == old(config.repr)
    ensures config.value == Merge(Merge(old(config.value), ModelOverride(model)), StrategyOverride(strategy))
  {
    if model != [] {
      config.SetPlain("model", Text(model));
      assert config.value.m == Merge(old(config.value), ModelOverride(model)).m;
    } else {
      MergeNothing(config.value);
    }
    NodeIsNested(config, "one_pass");
    ApplyLegacyStrategy(config, config.entries["one_pass"].d, strategy);
  }

  /** The entry is in both dictionaries, with one value, or in neither. */
  predicate SameEntry(k: string, before: Dict, after: Dict) {
    (k in after.m <==> k in before.m) && (k in before.m ==> after.m[k] == before.m[k])
  }

  predicate Holds(d: Dict, k: string, v: Scalar) {
    k in d.m && d.m[k] == Leaf(v)
  }

  /** What the strategy asks for: the mode, and for a single pass whether it thinks. */
  predicate ModeSet(before: Dict, s: Strategy, after: Dict)
    requires "one_pass" in before.m && before.m["one_pass"].Node?
  {
    && (s.TwoPass? ==> Holds(after, "mode", Text("two_pass")))
    && (s.OnePassThinking? || s.OnePassNoThinking? ==>
          && Holds(after, "mode", Text("one_pass")) && "one_pass" in after.m && after.m["one_pass"].Node?
          && Holds(after.m["one_pass"], "structured", Bool(true))
          && Holds(after.m["one_pass"], "thinking", Bool(s.OnePassThinking?)))
    && (s.NoStrategy? || s.OtherStrategy? ==> SameEntry("mode", before, after))
    && (s.NoStrategy? || s.OtherStrategy? || s.TwoPass? ==> SameEntry("one_pass", before, after))
  }

  /** The defaults with the legacy model and strategy, and every other entry as it was. */
  ghost predicate LegacyApplied(before: Dict, model: string, s: Strategy, after: Dict)
    requires "one_pass" in before.m && before.m["one_pass"].Node?
  {
    && ModeSet(before, s, after)
    && (if model != "" then Holds(after, "model", Text(model)) else SameEntry("model", before, after))
    && (forall k :: k != "mode" && k != "one_pass" && k != "model" ==> SameEntry(k, before, after))
    && (forall k :: k != "structured" && k != "thinking" && "one_pass" in after.m && after.m["one_pass"].Node? ==>
          SameEntry(k, before.m["one_pass"], after.m["one_pass"]))
  }

  /** What a single pass sets, with the keys as parameters. */
  lemma OnePassMeans(a: Dict, k: string, mode: string, t: string, u: string, thinking: bool, after: Dict)
    requires k in a.m && a.m[k].Node? && k != mode && t != u
    requires after.m == a.m[mode := Leaf(Text("one_pass"))]
      [k := Node(a.m[k].m[t := Leaf(Bool(thinking))][u := Leaf(Bool(true))])]
    ensures Holds(after, mode, Text("one_pass")) && k in after.m && after.m[k].Node?
    ensures Holds(after.m[k], u, Bool(true)) && Holds(after.m[k], t, Bool(thinking))
    ensures forall j :: j != mode && j != k ==> SameEntry(j, a, after)
    ensures forall j :: j != u && j != t ==> SameEntry(j, a.m[k], after.m[k])
  {
  }

  lemma StrategyMeans(a: Dict, s: Strategy, after: Dict)
    requires "one_pass" in a.m && a.m["one_pass"].Node? && after == Merge(a, StrategyOverride(s))
    ensures ModeSet(a, s, after) && (forall k :: k != "mode" && k != "one_pass" ==> SameEntry(k, a, after))
    ensures "one_pass" in after.m && after.m["one_pass"].Node?
    ensures forall k :: k != "structured" && k != "thinking" ==> SameEntry(k, a.m["one_pass"], after.m["one_pass"])
  {
    hide Merge, OnePass;
    match s
    case OnePassThinking =>
      OnePassMerged(a, "one_pass", a.m["one_pass"], true);
      OnePassMeans(a, "one_pass", "mode", "thinking", "structured", true, after);
    case OnePassNoThinking =>
      OnePassMerged(a, "one_pass", a.m["one_pass"], false);
      OnePassMeans(a, "one_pass", "mode", "thinking", "structured", false, after);
    case TwoPass => TwoPassMerged(a);
    case _ => MergeNothing(a);
  }

  lemma TwoPassMerged(a: Dict)
    ensures Merge(a, StrategyOverride(TwoPass)).m == a.m["mode" := Leaf(Text("two_pass"))]
  {
  }

  lemma ModelMerged(a: Dict, model: string)
    ensures Merge(a, ModelOverride(model)).m == if model == "" then a.m else a.m["model" := Leaf(Text(model))]
  {
    if model == "" {
      MergeNothing(a);
    }
  }

  lemma LegacyMeans(a: Dict, model: string, s: Strategy, after: Dict)
    requires "one_pass" in a.m && a.m["one_pass"].Node?
    requires after == Merge(Merge(a, ModelOverride(model)), StrategyOverride(s))
    ensures LegacyApplied(a, model, s, after)
  {
    hide Merge, StrategyOverride, ModelOverride, ModeSet;
    var b := Merge(a, ModelOverride(model));
    ModelMerged(a, model);
    assert forall k :: k != "model" ==> SameEntry(k, a, b);
    assert |"model"| != |"mode"| && |"model"| != |"one_pass"|;
    StrategyMeans(b, s, after);
    SameModes(a, b, s, after);
    assert SameEntry("model", b, after);
    forall k | k != "mode" && k != "one_pass" && k != "model"
      ensures SameEntry(k, a, after)
    {
      assert SameEntry(k, a, b) && SameEntry(k, b, after);
    }
  }

  lemma SameModes(a: Dict, b: Dict, s: Strategy, after: Dict)
    requires "one_pass" in a.m && a.m["one_pass"].Node? && SameEntry("mode", a, b) && SameEntry("one_pass", a, b)
    requires ModeSet(b, s, after)
    ensures ModeSet(a, s, after)
  {
  }

  /** `get_extraction_config`: what is stored, or else the legacy model and strategy, merged
      into a copy of the defaults. */
  method GetExtractionConfig(defaults: Dictionary, stored: Dictionary, model: string, strategy: Strategy)
    returns (config: Dictionary)
    requires defaults.Valid() && stored.Valid() && defaults.repr !! stored.repr
    requires "one_pass" in defaults.value.m && defaults.value.m["one_pass"].Node?
    ensures config.Valid() && config.repr !! defaults.repr && fresh(config.repr - stored.repr)
    ensures config.value ==
      if stored.entries != map[] then Merge(defaults.value, stored.value)
      else Merge(Merge(defaults.value, ModelOverride(model)), StrategyOverride(strategy))
    ensures stored.entries == map[] ==> LegacyApplied(defaults.value, model, strategy, config.value)
  {
    config := DeepCopy(defaults);
    if stored.entries != map[] {
      DeepMerge(config, stored);
    } else {
      LegacyConfig(config, model, strategy);
      LegacyMeans(defaults.value, model, strategy, config.value);
    }
  }

  lemma NodeIsNested(d: Dictionary, k: string)
    requires d.Valid() && k in d.value.m && d.value.m[k].Node?
    ensures k in d.entries && d.entries[k].Nested?
  {
  }
}

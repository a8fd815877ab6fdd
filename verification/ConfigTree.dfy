/** `_deep_merge` of `app/models/system_config.py` on values: nested dictionaries as trees. */
module ConfigTree {
  import opened Wrappers

  /** Any value but a dictionary. */
  datatype Scalar = Bool(b: bool) | Text(s: string) | Other(n: int)

  datatype Tree = Leaf(v: Scalar) | Node(m: map<string, Tree>)

  type Dict = t: Tree | t.Node? witness Node(map[])

  function Merge(a: Dict, b: Dict): Dict
    decreases b
  {
    Node(map k | k in a.m.Keys + b.m.Keys ::
      if k !in b.m then a.m[k]
      else if k in a.m && a.m[k].Node? && b.m[k].Node? then Merge(a.m[k], b.m[k])
      else b.m[k])
  }

  // ---------------------------------------------------------------------------
  // What is found where
  // ---------------------------------------------------------------------------

  type Path = seq<string>

  function Lookup(t: Tree, p: Path): Option<Tree>
    decreases p
  {
    if p == [] then Some(t)
    else if t.Node? && p[0] in t.m then Lookup(t.m[p[0]], p[1..])
    else None
  }

  /** The value, other than a dictionary, at a path. */
  function LeafAt(t: Tree, p: Path): Option<Scalar> {
    match Lookup(t, p)
    case Some(Leaf(v)) => Some(v)
    case _ => None
  }

  /** The path, or a dictionary on the way to it, is set by `b`: there is something at the
      path, or a plain value before its end. */
  ghost predicate Touches(b: Tree, p: Path) {
    Lookup(b, p).Some? || exists k :: 0 < k < |p| && LeafAt(b, p[..k]).Some?
  }

  lemma TouchesBelow(b: Dict, p: Path)
    requires |p| > 1
    ensures Touches(b, p) <==> p[0] in b.m && (b.m[p[0]].Leaf? || Touches(b.m[p[0]], p[1..]))
  {
    if p[0] in b.m {
      var c, q := b.m[p[0]], p[1..];
      forall k | 0 < k < |p|
        ensures LeafAt(b, p[..k]) == LeafAt(c, q[..k - 1])
      {
        assert p[..k][0] == p[0] && p[..k][1..] == q[..k - 1];
      }
      assert LeafAt(b, p[..1]).Some? <==> c.Leaf? by {
        assert q[..0] == [];
      }
      if k :| 0 < k < |q| && LeafAt(c, q[..k]).Some? {
        assert LeafAt(b, p[..k + 1]).Some?;
      }
      if k :| 0 < k < |p| && LeafAt(b, p[..k]).Some? {
        assert k > 1 ==> LeafAt(c, q[..k - 1]).Some?;
      }
    } else {
      assert forall k :: 0 < k < |p| ==> p[..k][0] == p[0];
    }
  }

  lemma LeafBelow(t: Dict, p: Path)
    requires p != []
    ensures LeafAt(t, p) == if p[0] in t.m then LeafAt(t.m[p[0]], p[1..]) else None
  {
  }

  lemma LeafHasNothingBelow(p: Path)
    requires p != []
    ensures forall v :: LeafAt(Leaf(v), p).None?
  {
  }

  /** Every value of a merge: the override wins at each path that it sets, hides what it
      replaces by a plain value or a dictionary, and every other path keeps the base's value. */
  lemma {:induction false} MergedValues(a: Dict, b: Dict, p: Path)
    requires p != []
    ensures LeafAt(Merge(a, b), p) ==
      if LeafAt(b, p).Some? then LeafAt(b, p) else if Touches(b, p) then None else LeafAt(a, p)
    decreases p
  {
    var k, q := p[0], p[1..];
    LeafBelow(a, p);
    LeafBelow(b, p);
    LeafBelow(Merge(a, b), p);
    if |p| == 1 {
      assert q == [];
    } else {
      TouchesBelow(b, p);
      LeafHasNothingBelow(q);
      if k in a.m && k in b.m && a.m[k].Node? && b.m[k].Node? {
        MergedValues(a.m[k], b.m[k], q);
      }
    }
  }

  /** Where both have a dictionary, the merge has the merge of the two, with the keys of both. */
  lemma {:induction false} MergedDictionaries(a: Dict, b: Dict, p: Path)
    requires Lookup(a, p).Some? && Lookup(a, p).value.Node? && Lookup(b, p).Some? && Lookup(b, p).value.Node?
    ensures Lookup(Merge(a, b), p) == Some(Merge(Lookup(a, p).value, Lookup(b, p).value))
    ensures Lookup(Merge(a, b), p).value.m.Keys == Lookup(a, p).value.m.Keys + Lookup(b, p).value.m.Keys
    decreases p
  {
    if p != [] {
      MergedDictionaries(a.m[p[0]], b.m[p[0]], p[1..]);
    }
  }

  // ---------------------------------------------------------------------------
  // Laws
  // ---------------------------------------------------------------------------

  lemma {:induction false} MergeSelf(b: Dict)
    ensures Merge(b, b) == b
  {
    forall k | k in b.m && b.m[k].Node? {
      MergeSelf(b.m[k]);
    }
    assert Merge(b, b).m == b.m;
  }

  /** Merging the same override again changes nothing. */
  lemma {:induction false} MergeTwice(a: Dict, b: Dict)
    ensures Merge(Merge(a, b), b) == Merge(a, b)
    decreases b
  {
    forall k | k in b.m && b.m[k].Node?
      ensures Merge(b.m[k], b.m[k]) == b.m[k]
      ensures k in a.m && a.m[k].Node? ==> Merge(Merge(a.m[k], b.m[k]), b.m[k]) == Merge(a.m[k], b.m[k])
    {
      MergeSelf(b.m[k]);
      if k in a.m && a.m[k].Node? {
        MergeTwice(a.m[k], b.m[k]);
      }
    }
    assert Merge(Merge(a, b), b).m == Merge(a, b).m;
  }

  /** Wherever all three have something: no plain value in the middle between two
      dictionaries, unless the first of these adds nothing to the last. */
  ghost predicate Associates(a: Dict, b: Dict, c: Dict)
    decreases b
  {
    forall k :: k in a.m && k in b.m && k in c.m && a.m[k].Node? && c.m[k].Node? ==>
      if b.m[k].Node? then Associates(a.m[k], b.m[k], c.m[k]) else Merge(a.m[k], c.m[k]) == c.m[k]
  }

  lemma {:induction false} AssociativeAt(a: Dict, b: Dict, c: Dict, k: string)
    requires k in a.m && k in b.m && k in c.m && a.m[k].Node? && c.m[k].Node?
    ensures Merge(Merge(a, b), c).m[k] ==
      if b.m[k].Node? then Merge(Merge(a.m[k], b.m[k]), c.m[k]) else c.m[k]
    ensures Merge(a, Merge(b, c)).m[k] ==
      if b.m[k].Node? then Merge(a.m[k], Merge(b.m[k], c.m[k])) else Merge(a.m[k], c.m[k])
  {
    assert Merge(a, b).m[k] == if b.m[k].Node? then Merge(a.m[k], b.m[k]) else b.m[k];
    assert Merge(b, c).m[k] == if b.m[k].Node? then Merge(b.m[k], c.m[k]) else c.m[k];
  }

  lemma AssociativeElsewhere(a: Dict, b: Dict, c: Dict, k: string)
    requires !(k in a.m && k in b.m && k in c.m && a.m[k].Node? && c.m[k].Node?)
    requires k in Merge(Merge(a, b), c).m
    ensures k in Merge(a, Merge(b, c)).m
    ensures Merge(Merge(a, b), c).m[k] == Merge(a, Merge(b, c)).m[k]
  {
  }

  /** Merging is associative exactly then. */
  lemma {:induction false} MergeAssociative(a: Dict, b: Dict, c: Dict)
    ensures Merge(Merge(a, b), c) == Merge(a, Merge(b, c)) <==> Associates(a, b, c)
    decreases b
  {
    var left, right := Merge(Merge(a, b), c), Merge(a, Merge(b, c));
    assert left.m.Keys == right.m.Keys;
    forall k | k in left.m
      ensures left.m[k] == right.m[k] <==>
        (k in a.m && k in b.m && k in c.m && a.m[k].Node? && c.m[k].Node? ==>
          if b.m[k].Node? then Associates(a.m[k], b.m[k], c.m[k]) else Merge(a.m[k], c.m[k]) == c.m[k])
    {
      if k in a.m && k in b.m && k in c.m && a.m[k].Node? && c.m[k].Node? {
        AssociativeAt(a, b, c, k);
        if b.m[k].Node? {
          MergeAssociative(a.m[k], b.m[k], c.m[k]);
        }
      } else {
        AssociativeElsewhere(a, b, c, k);
      }
    }
    assert left == right <==> forall k :: k in left.m ==> left.m[k] == right.m[k] by {
      assert (forall k :: k in left.m ==> left.m[k] == right.m[k]) ==> left.m == right.m;
    }
  }

  /** Trees that agree on which keys hold dictionaries. */
  ghost predicate Agree(a: Dict, b: Dict)
    decreases b
  {
    forall k :: k in a.m && k in b.m ==>
      (a.m[k].Node? <==> b.m[k].Node?) && (a.m[k].Node? && b.m[k].Node? ==> Agree(a.m[k], b.m[k]))
  }

  lemma {:induction false} AgreeingAssociates(a: Dict, b: Dict, c: Dict)
    requires Agree(a, b) && Agree(b, c)
    ensures Associates(a, b, c)
    decreases b
  {
    forall k | k in a.m && k in b.m && k in c.m && a.m[k].Node? && c.m[k].Node? && b.m[k].Node? {
      AgreeingAssociates(a.m[k], b.m[k], c.m[k]);
    }
  }
}

/** Attribute documents merged into one tree: combine freely, refuse a genuine conflict. */
module AttributeTrees {
  import opened Values

  // ---- The merge

  /** Objects agree key by key; anything else must be equal. */
  predicate Compatible(a: Json, b: Json)
    decreases a
  {
    if a.Obj? && b.Obj? then
      forall k :: k in a.fields && k in b.fields ==> Compatible(a.fields[k], b.fields[k])
    else a == b
  }

  function Merge(a: Json, b: Json): (r: Json)
    decreases a
  {
    if a.Obj? && b.Obj? then
      Obj(map k | k in a.fields.Keys + b.fields.Keys ::
            if k !in a.fields then b.fields[k]
            else if k !in b.fields then a.fields[k]
            else Merge(a.fields[k], b.fields[k]))
    else a
  }

  datatype Conflict = Conflict(path: seq<string>)

  /** Both trees have a value here, and they cannot be reconciled. */
  ghost predicate ConflictAt(a: Json, b: Json, path: seq<string>)
    decreases |path|
  {
    if path == [] then !(a.Obj? && b.Obj?) && a != b
    else
      && a.Obj? && b.Obj? && path[0] in a.fields && path[0] in b.fields
      && ConflictAt(a.fields[path[0]], b.fields[path[0]], path[1..])
  }

  /** `out` is `acc` with every incoming key but those in `keys` merged in. */
  ghost predicate Progress(acc: map<string, Json>, incoming: map<string, Json>, keys: set<string>, out: map<string,
                           Json>)
  {
    && keys <= incoming.Keys
    && out.Keys == acc.Keys + (incoming.Keys - keys)
    && (forall k :: k in acc && (k !in incoming || k in keys) ==> out[k] == acc[k])
    && (forall k :: k in incoming && k !in keys ==> MergedIn(acc, incoming, out, k))
  }

  ghost predicate MergedIn(acc: map<string, Json>, incoming: map<string, Json>, out: map<string, Json>, k: string)
  {
    && k in incoming && k in out
    && if k in acc then Compatible(acc[k], incoming[k]) && out[k] == Merge(acc[k], incoming[k])
       else out[k] == incoming[k]
  }

  lemma ProgressStep(acc: map<string, Json>, incoming: map<string, Json>, keys: set<string>, out: map<string, Json>,
                     k: string, v: Json)
    requires Progress(acc, incoming, keys, out) && k in keys
    requires MergedIn(acc, incoming, out[k := v], k)
    ensures Progress(acc, incoming, keys - {k}, out[k := v])
  {
    forall j | j in incoming && j !in keys - {k}
      ensures MergedIn(acc, incoming, out[k := v], j)
    {
      if j != k {
        assert MergedIn(acc, incoming, out, j);
      }
    }
  }

  lemma ProgressDone(acc: map<string, Json>, incoming: map<string, Json>, out: map<string, Json>)
    requires Progress(acc, incoming, {}, out)
    ensures Compatible(Obj(acc), Obj(incoming)) && Obj(out) == Merge(Obj(acc), Obj(incoming))
  {
    forall k | k in acc && k in incoming
      ensures Compatible(acc[k], incoming[k])
    {
      assert MergedIn(acc, incoming, out, k);
    }
    var merged := Merge(Obj(acc), Obj(incoming)).fields;
    assert out.Keys == merged.Keys;
    forall k | k in out
      ensures out[k] == merged[k]
    {
      if k in incoming {
        assert MergedIn(acc, incoming, out, k);
      }
    }
    assert out == merged;
  }

  /** `merge_object` as written, with the keys in any order: the merge, or a real conflict and its path. */
  method MergeObject(acc: map<string, Json>, incoming: Json, prefix: seq<string>)
    returns (r: Result<map<string, Json>, Conflict>)
    requires incoming.Obj?
    ensures r.Ok? <==> Compatible(Obj(acc), incoming)
    ensures r.Ok? ==> Obj(r.value) == Merge(Obj(acc), incoming)
    ensures r.Err? ==> prefix <= r.error.path && ConflictAt(Obj(acc), incoming, r.error.path[|prefix|..])
    decreases incoming
  {
    var out, keys := acc, incoming.fields.Keys;
    while keys != {}
      invariant Progress(acc, incoming.fields, keys, out)
      decreases |keys|
    {
      var k :| k in keys;
      var v := incoming.fields[k];
      var path := prefix + [k];
      var next := v;
      if k in out {
        var existing := out[k];
        next := existing;
        if existing.Obj? && v.Obj? {
          var inner := MergeObject(existing.fields, v, path);
          if inner.Err? {
            Descend(acc, incoming, k, prefix, inner.error.path);
            return inner;
          }
          next := Obj(inner.value);
        } else if existing != v {
          assert path[|prefix|..] == [k];
          return Err(Conflict(path));
        }
      }
      ProgressStep(acc, incoming.fields, keys, out, k, next);
      out := out[k := next];
      keys := keys - {k};
    }
    ProgressDone(acc, incoming.fields, out);
    return Ok(out);
  }

  lemma Descend(acc: map<string, Json>, incoming: Json, k: string, prefix: seq<string>, path: seq<string>)
    requires incoming.Obj? && k in acc && k in incoming.fields && prefix + [k] <= path
    requires ConflictAt(acc[k], incoming.fields[k], path[|prefix| + 1..])
    ensures prefix <= path && ConflictAt(Obj(acc), incoming, path[|prefix|..])
    ensures !Compatible(acc[k], incoming.fields[k]) ==> !Compatible(Obj(acc), incoming)
  {
    var suffix := path[|prefix|..];
    assert suffix[0] == (prefix + [k])[|prefix|] == k && suffix[1..] == path[|prefix| + 1..];
  }

  // ---- Trees as what they hold at each path

  datatype Shape = Branch | Leaf(value: Json)

  function ShapeAt(j: Json, path: seq<string>): (r: Option<Shape>)
    decreases |path|
  {
    if path == [] then Some(if j.Obj? then Branch else Leaf(j))
    else if j.Obj? && path[0] in j.fields then ShapeAt(j.fields[path[0]], path[1..])
    else None
  }

  /** Both trees hold something at the path, and not the same. */
  ghost predicate Clash(a: Json, b: Json, path: seq<string>)
  {
    ShapeAt(a, path).Some? && ShapeAt(b, path).Some? && ShapeAt(a, path) != ShapeAt(b, path)
  }

  lemma {:induction false} ClashFound(a: Json, b: Json) returns (path: seq<string>)
    requires !Compatible(a, b)
    ensures Clash(a, b, path)
    decreases a
  {
    if a.Obj? && b.Obj? {
      var k :| k in a.fields && k in b.fields && !Compatible(a.fields[k], b.fields[k]);
      var rest := ClashFound(a.fields[k], b.fields[k]);
      path := [k] + rest;
      assert path[1..] == rest;
    } else {
      path := [];
    }
  }

  lemma {:induction false} NoClash(a: Json, b: Json, path: seq<string>)
    requires Compatible(a, b)
    ensures !Clash(a, b, path)
    decreases |path|
  {
    if path != [] && a.Obj? && b.Obj? && path[0] in a.fields && path[0] in b.fields {
      NoClash(a.fields[path[0]], b.fields[path[0]], path[1..]);
    }
  }

  /** Two trees are compatible exactly when they agree wherever both hold something. */
  lemma {:induction false} CompatibleExactly(a: Json, b: Json)
    ensures Compatible(a, b) <==> forall path :: !Clash(a, b, path)
  {
    if !Compatible(a, b) {
      var path := ClashFound(a, b);
      assert Clash(a, b, path);
    }
    forall path | Compatible(a, b)
      ensures !Clash(a, b, path)
    {
      NoClash(a, b, path);
    }
  }

  /** The merge holds at each path what either tree holds there. */
  lemma {:induction false} MergeShape(a: Json, b: Json, path: seq<string>)
    requires Compatible(a, b)
    ensures ShapeAt(Merge(a, b), path) == if ShapeAt(a, path).Some? then ShapeAt(a, path) else ShapeAt(b, path)
    decreases |path|
  {
    if path != [] && a.Obj? && b.Obj? && path[0] in a.fields && path[0] in b.fields {
      MergeShape(a.fields[path[0]], b.fields[path[0]], path[1..]);
    }
  }

  ghost predicate SameShapes(a: Json, b: Json)
  {
    forall path :: ShapeAt(a, path) == ShapeAt(b, path)
  }

  /** A tree is determined by what it holds at each path. */
  lemma {:induction false} ShapesDetermine(a: Json, b: Json)
    requires SameShapes(a, b)
    ensures a == b
    decreases a
  {
    assert ShapeAt(a, []) == ShapeAt(b, []);
    if a.Obj? {
      forall k
        ensures k in a.fields <==> k in b.fields
      {
        assert ShapeAt(a, [k]) == ShapeAt(b, [k]);
        SingleStep(a, k, []);
        SingleStep(b, k, []);
      }
      forall k | k in a.fields
        ensures a.fields[k] == b.fields[k]
      {
        forall path
          ensures ShapeAt(a.fields[k], path) == ShapeAt(b.fields[k], path)
        {
          SingleStep(a, k, path);
          SingleStep(b, k, path);
          assert ShapeAt(a, [k] + path) == ShapeAt(b, [k] + path);
        }
        ShapesDetermine(a.fields[k], b.fields[k]);
      }
      assert a.fields == b.fields;
    }
  }

  lemma SingleStep(j: Json, k: string, path: seq<string>)
    requires j.Obj?
    ensures ShapeAt(j, [k] + path) == if k in j.fields then ShapeAt(j.fields[k], path) else None
    ensures [k] + [] == [k]
  {
    assert ([k] + path)[1..] == path;
  }

  // ---- A partial, idempotent, commutative monoid

  lemma CompatibleSymmetric(a: Json, b: Json)
    ensures Compatible(a, b) <==> Compatible(b, a)
  {
    CompatibleExactly(a, b);
    CompatibleExactly(b, a);
    assert forall path :: Clash(a, b, path) <==> Clash(b, a, path);
  }

  /** Equality is up to the sign of zero: the two zeros of `f64` are one value here. */
  lemma {:induction false} MergeCommutes(a: Json, b: Json)
    requires Compatible(a, b)
    ensures Compatible(b, a) && Merge(a, b) == Merge(b, a)
  {
    CompatibleSymmetric(a, b);
    forall path
      ensures ShapeAt(Merge(a, b), path) == ShapeAt(Merge(b, a), path)
    {
      MergeShape(a, b, path);
      MergeShape(b, a, path);
      NoClash(a, b, path);
    }
    ShapesDetermine(Merge(a, b), Merge(b, a));
  }

  lemma {:induction false} MergeIdempotent(a: Json)
    ensures Compatible(a, a) && Merge(a, a) == a
  {
    CompatibleExactly(a, a);
    forall path
      ensures ShapeAt(Merge(a, a), path) == ShapeAt(a, path)
    {
      MergeShape(a, a, path);
    }
    ShapesDetermine(Merge(a, a), a);
  }

  /** A third tree fits a merge exactly when it fits both parts. */
  lemma {:induction false} CompatibleWithMerge(a: Json, b: Json, c: Json)
    requires Compatible(a, b)
    ensures Compatible(Merge(a, b), c) <==> Compatible(a, c) && Compatible(b, c)
  {
    CompatibleExactly(a, c);
    CompatibleExactly(b, c);
    CompatibleExactly(Merge(a, b), c);
    forall path
      ensures Clash(Merge(a, b), c, path) <==> Clash(a, c, path) || Clash(b, c, path)
    {
      MergeShape(a, b, path);
      NoClash(a, b, path);
    }
    if Compatible(Merge(a, b), c) {
      assert forall path :: Clash(a, c, path) ==> Clash(Merge(a, b), c, path);
      assert forall path :: Clash(b, c, path) ==> Clash(Merge(a, b), c, path);
    }
  }

  lemma {:induction false} MergeAssociative(a: Json, b: Json, c: Json)
    requires Compatible(a, b) && Compatible(b, c) && Compatible(a, c)
    ensures Compatible(Merge(a, b), c) && Compatible(a, Merge(b, c))
    ensures Merge(Merge(a, b), c) == Merge(a, Merge(b, c))
  {
    CompatibleWithMerge(a, b, c);
    CompatibleSymmetric(a, b);
    CompatibleSymmetric(a, c);
    CompatibleWithMerge(b, c, a);
    CompatibleSymmetric(Merge(b, c), a);
    forall path
      ensures ShapeAt(Merge(Merge(a, b), c), path) == ShapeAt(Merge(a, Merge(b, c)), path)
    {
      MergeShape(a, b, path);
      MergeShape(b, c, path);
      MergeShape(Merge(a, b), c, path);
      MergeShape(a, Merge(b, c), path);
    }
    ShapesDetermine(Merge(Merge(a, b), c), Merge(a, Merge(b, c)));
  }
}

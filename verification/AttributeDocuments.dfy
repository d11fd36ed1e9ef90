/** Merging a list of attribute documents: when it succeeds, and what it yields, whatever the order. */
module AttributeDocuments {
  import opened Values
  import opened AttributeTrees

  datatype MergeFault = Malformed | Conflicting(conflict: Conflict)

  const NOTHING := Obj(map[])

  /** `extract_data`: the mapping under `data:`, in a document that holds nothing else. */
  function DataOf(doc: Json): (r: Option<Json>)
    ensures r.Some? ==> r.value.Obj?
  {
    match doc
    case Null => Some(NOTHING)
    case Obj(fields) =>
      if fields.Keys - {"data"} != {} then None
      else if "data" !in fields || fields["data"].Null? then Some(NOTHING)
      else if fields["data"].Obj? then Some(fields["data"])
      else None
    case _ => None
  }

  /** `merge_attribute_docs` as a function; nothing when a document is malformed or conflicts. */
  function MergeDocs(docs: seq<Json>): (r: Option<Json>)
    ensures r.Some? ==> r.value.Obj?
    decreases |docs|
  {
    if docs == [] then Some(NOTHING)
    else
      var n := |docs| - 1;
      var acc, data := MergeDocs(docs[..n]), DataOf(docs[n]);
      if acc.Some? && data.Some? && Compatible(acc.value, data.value) then Some(Merge(acc.value, data.value)) else None
  }

  method MergeAttributeDocs(docs: seq<Json>) returns (r: Result<Json, MergeFault>)
    ensures r.Ok? <==> MergeDocs(docs).Some?
    ensures r.Ok? ==> r.value == MergeDocs(docs).value
  {
    var acc: map<string, Json> := map[];
    for i := 0 to |docs|
      invariant MergeDocs(docs[..i]) == Some(Obj(acc))
    {
      assert docs[..i + 1][..i] == docs[..i];
      var data := DataOf(docs[i]);
      if data.None? {
        StuckAt(docs, i + 1);
        return Err(Malformed);
      }
      var merged := MergeObject(acc, data.value, ["data"]);
      if merged.Err? {
        StuckAt(docs, i + 1);
        return Err(Conflicting(merged.error));
      }
      acc := merged.value;
    }
    assert docs[..|docs|] == docs;
    return Ok(Obj(acc));
  }

  /** Once a prefix fails, the whole list does. */
  lemma {:induction false} StuckAt(docs: seq<Json>, i: nat)
    requires i <= |docs| && MergeDocs(docs[..i]).None?
    ensures MergeDocs(docs).None?
    decreases |docs|
  {
    if i == |docs| {
      assert docs[..i] == docs;
    } else {
      var n := |docs| - 1;
      assert docs[..n][..i] == docs[..i];
      StuckAt(docs[..n], i);
    }
  }

  // ---- When it succeeds

  ghost predicate AllFormed(docs: seq<Json>)
  {
    forall d :: d in docs ==> DataOf(d).Some?
  }

  ghost predicate PairwiseCompatible(docs: seq<Json>)
    requires AllFormed(docs)
  {
    forall c, d :: c in docs && d in docs ==> Compatible(DataOf(c).value, DataOf(d).value)
  }

  ghost predicate FitsAll(docs: seq<Json>, t: Json)
    requires AllFormed(docs)
  {
    forall d :: d in docs ==> Compatible(DataOf(d).value, t)
  }

  lemma NothingFits(t: Json)
    requires t.Obj?
    ensures Compatible(NOTHING, t) && Merge(NOTHING, t) == t
  {
    assert Merge(NOTHING, t).fields == t.fields;
  }

  lemma Extended(docs: seq<Json>)
    requires docs != []
    ensures var n := |docs| - 1; forall d :: d in docs <==> d in docs[..n] || d == docs[n]
  {
    var n := |docs| - 1;
    assert docs == docs[..n] + [docs[n]];
  }

  /** A tree fits the merge exactly when it fits every document. */
  lemma {:induction false} FitsMerge(docs: seq<Json>, t: Json)
    requires MergeDocs(docs).Some? && t.Obj?
    ensures AllFormed(docs) && (Compatible(MergeDocs(docs).value, t) <==> FitsAll(docs, t))
    decreases |docs|
  {
    if docs == [] {
      NothingFits(t);
    } else {
      var n := |docs| - 1;
      Extended(docs);
      FitsMerge(docs[..n], t);
      CompatibleWithMerge(MergeDocs(docs[..n]).value, DataOf(docs[n]).value, t);
    }
  }

  lemma {:induction false} MergesPairwise(docs: seq<Json>)
    ensures MergeDocs(docs).Some? <==> AllFormed(docs) && PairwiseCompatible(docs)
    decreases |docs|
  {
    if docs != [] {
      var n := |docs| - 1;
      var init := docs[..n];
      Extended(docs);
      MergesPairwise(init);
      if AllFormed(docs) {
        var data := DataOf(docs[n]).value;
        if MergeDocs(init).Some? {
          FitsMerge(init, data);
        }
        if PairwiseCompatible(init) && FitsAll(init, data) {
          forall c, d | c in docs && d in docs
            ensures Compatible(DataOf(c).value, DataOf(d).value)
          {
            PairFits(init, data, docs[n], c, d);
          }
        }
        if PairwiseCompatible(docs) {
          assert docs[n] in docs;
        }
      }
    }
  }

  lemma PairFits(init: seq<Json>, data: Json, last: Json, c: Json, d: Json)
    requires AllFormed(init) && PairwiseCompatible(init) && FitsAll(init, data) && DataOf(last) == Some(data)
    requires (c in init || c == last) && (d in init || d == last)
    ensures Compatible(DataOf(c).value, DataOf(d).value)
  {
    MergeIdempotent(data);
    if c !in init && d in init {
      CompatibleSymmetric(DataOf(d).value, data);
    }
  }

  /** Nothing at all, or a mapping of nothing but `data`, and that to nothing or to a mapping. */
  ghost predicate WellFormed(doc: Json)
  {
    && ShapeAt(doc, []) in {Some(Branch), Some(Leaf(Null))}
    && (forall key :: key != "data" ==> ShapeAt(doc, [key]).None?)
    && ShapeAt(doc, ["data"]) in {None, Some(Branch), Some(Leaf(Null))}
  }

  /** The documents disagree somewhere below `data`. */
  ghost predicate Disagree(c: Json, d: Json)
  {
    exists path :: path != [] && Clash(c, d, ["data"] + path)
  }

  lemma Below(doc: Json, path: seq<string>)
    requires DataOf(doc).Some? && path != []
    ensures ShapeAt(DataOf(doc).value, path) == ShapeAt(doc, ["data"] + path)
  {
    assert (["data"] + path)[1..] == path;
  }

  lemma FormedExactly(doc: Json)
    ensures DataOf(doc).Some? <==> WellFormed(doc)
  {
    forall key: string
      ensures ShapeAt(doc, [key]).Some? <==> doc.Obj? && key in doc.fields
    {
      assert [key][1..] == [];
    }
    assert ["data"][1..] == [];
    if doc.Obj? {
      var stray := doc.fields.Keys - {"data"};
      assert forall key :: key != "data" && key in doc.fields ==> key in stray;
      if stray != {} {
        var key :| key in stray;
        assert ShapeAt(doc, [key]).Some?;
      }
      if "data" in doc.fields {
        assert ShapeAt(doc, ["data"]) == ShapeAt(doc.fields["data"], []);
      }
    }
  }

  lemma AgreeExactly(c: Json, d: Json)
    requires DataOf(c).Some? && DataOf(d).Some?
    ensures Compatible(DataOf(c).value, DataOf(d).value) <==> !Disagree(c, d)
  {
    var a, b := DataOf(c).value, DataOf(d).value;
    CompatibleExactly(a, b);
    forall path: seq<string> | path != []
      ensures Clash(a, b, path) <==> Clash(c, d, ["data"] + path)
    {
      Below(c, path);
      Below(d, path);
    }
    assert !Clash(a, b, []);
  }

  /** The merge succeeds exactly when every document is well formed and no two disagree. */
  lemma {:induction false} MergesExactly(docs: seq<Json>)
    ensures MergeDocs(docs).Some? <==>
      (forall d :: d in docs ==> WellFormed(d)) && (forall c, d :: c in docs && d in docs ==> !Disagree(c, d))
  {
    MergesPairwise(docs);
    forall d | d in docs
      ensures DataOf(d).Some? <==> WellFormed(d)
    {
      FormedExactly(d);
    }
    if AllFormed(docs) {
      forall c, d | c in docs && d in docs
        ensures Compatible(DataOf(c).value, DataOf(d).value) <==> !Disagree(c, d)
      {
        AgreeExactly(c, d);
      }
    }
  }

  // ---- What it yields

  ghost predicate SomeHolds(docs: seq<Json>, path: seq<string>, shape: Shape)
  {
    exists d :: d in docs && ShapeAt(d, ["data"] + path) == Some(shape)
  }

  /** Below the root, the merged tree holds at each path exactly what some document holds there. */
  lemma {:induction false} MergedShapes(docs: seq<Json>, path: seq<string>, shape: Shape)
    requires MergeDocs(docs).Some? && path != []
    ensures ShapeAt(MergeDocs(docs).value, path) == Some(shape) <==> SomeHolds(docs, path, shape)
    decreases |docs|
  {
    if docs != [] {
      var n := |docs| - 1;
      var init, data := docs[..n], DataOf(docs[n]).value;
      Extended(docs);
      MergedShapes(init, path, shape);
      MergeShape(MergeDocs(init).value, data, path);
      NoClash(MergeDocs(init).value, data, path);
      Below(docs[n], path);
      if SomeHolds(init, path, shape) {
        var d :| d in init && ShapeAt(d, ["data"] + path) == Some(shape);
        assert d in docs;
      }
      if ShapeAt(data, path) == Some(shape) {
        assert docs[n] in docs;
      }
    }
  }

  /** The merged tree is a mapping whose leaves are exactly the union of the documents' leaves below `data`. */
  lemma {:induction false} LeavesAreUnion(docs: seq<Json>, path: seq<string>, value: Json)
    requires MergeDocs(docs).Some?
    ensures ShapeAt(MergeDocs(docs).value, []) == Some(Branch)
    ensures path != [] ==>
      (ShapeAt(MergeDocs(docs).value, path) == Some(Leaf(value)) <==> SomeHolds(docs, path, Leaf(value)))
  {
    if path != [] {
      MergedShapes(docs, path, Leaf(value));
    }
  }

  /**
   * Lists with the same documents, in any order and however often each, merge alike (up to the sign of
   * zero: the two zeros of `f64` are one value here).
   */
  lemma {:induction false} OrderIrrelevant(docs: seq<Json>, others: seq<Json>)
    requires forall d :: d in docs <==> d in others
    ensures MergeDocs(docs) == MergeDocs(others)
  {
    MergesPairwise(docs);
    MergesPairwise(others);
    if MergeDocs(docs).Some? {
      var a, b := MergeDocs(docs).value, MergeDocs(others).value;
      forall path
        ensures ShapeAt(a, path) == ShapeAt(b, path)
      {
        if path != [] {
          SameAt(docs, others, path);
        }
      }
      ShapesDetermine(a, b);
    }
  }

  lemma SameAt(docs: seq<Json>, others: seq<Json>, path: seq<string>)
    requires path != [] && (forall d :: d in docs <==> d in others)
    requires MergeDocs(docs).Some? && MergeDocs(others).Some?
    ensures ShapeAt(MergeDocs(docs).value, path) == ShapeAt(MergeDocs(others).value, path)
  {
    var a, b := ShapeAt(MergeDocs(docs).value, path), ShapeAt(MergeDocs(others).value, path);
    if a.Some? {
      MergedShapes(docs, path, a.value);
      MergedShapes(others, path, a.value);
    }
    if b.Some? {
      MergedShapes(docs, path, b.value);
      MergedShapes(others, path, b.value);
    }
  }
}

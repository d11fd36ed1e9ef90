/** JSON documents flattened into the attribute bag under dotted keys. */
module Flattening {
  import opened Values
  import opened Attributes

  // ---- What a node contributes

  function ScalarText(f: Foreign, j: Json): (r: Option<string>)
  {
    match j
    case Str(s) => Some(s)
    case Num(n) => Some(f.showNumber(n))
    case Bool(b) => Some(if b then "true" else "false")
    case _ => None
  }

  predicate Compound(j: Json)
  {
    j.Arr? || j.Obj?
  }

  /** The members of a scalar array; null contributes none. */
  function Members(f: Foreign, items: seq<Json>): (r: set<string>)
  {
    set i | 0 <= i < |items| && ScalarText(f, items[i]).Some? :: ScalarText(f, items[i]).value
  }

  predicate AnyCompound(items: seq<Json>)
  {
    exists i :: 0 <= i < |items| && Compound(items[i])
  }

  /** The bag value of one node; `mark` gives null, objects and mixed arrays a marker of their own. */
  function Classified(f: Foreign, j: Json, mark: bool): (r: Option<AttributeValue>)
    ensures mark ==> r.Some?
  {
    match j
    case Str(s) => Some(StringValue(s))
    case Bool(b) => Some(BoolValue(b))
    case Num(n) =>
      Some(if AsI64(n).Some? then IntValue(AsI64(n).value)
           else if n.Whole? then FloatValue(Finite(f.intAsF64(n.n)))
           else FloatValue(Finite(n.r)))
    case Arr(items) =>
      if !AnyCompound(items) then Some(StringSetValue(Members(f, items)))
      else if mark then Some(NonScalar) else None
    case _ => if mark then Some(NonScalar) else None
  }

  function NodeAt(j: Json, path: seq<string>): (r: Option<Json>)
    decreases |path|
  {
    if path == [] then Some(j)
    else if j.Obj? && path[0] in j.fields then NodeAt(j.fields[path[0]], path[1..])
    else None
  }

  /** What the flattened document says at a path. */
  function Expected(f: Foreign, j: Json, path: seq<string>, mark: bool): (r: Option<AttributeValue>)
  {
    var node := NodeAt(j, path);
    if node.Some? then Classified(f, node.value, mark) else None
  }

  // ---- Keys

  predicate DotFree(s: string)
  {
    '.' !in s
  }

  predicate DotFreePath(path: seq<string>)
  {
    forall i :: 0 <= i < |path| ==> DotFree(path[i])
  }

  predicate DotFreeKeys(j: Json)
  {
    j.Obj? ==> forall k :: k in j.fields ==> DotFree(k) && DotFreeKeys(j.fields[k])
  }

  function Key(prefix: string, path: seq<string>): (key: string)
    decreases |path|
  {
    if path == [] then prefix else Key(prefix + "." + path[0], path[1..])
  }

  /** The key is the prefix or lies below it. */
  predicate Under(prefix: string, key: string)
  {
    key == prefix || prefix + "." <= key
  }

  lemma {:induction false} KeyUnder(prefix: string, path: seq<string>)
    ensures Under(prefix, Key(prefix, path))
    decreases |path|
  {
    if path != [] {
      KeyUnder(prefix + "." + path[0], path[1..]);
      UnderChild(prefix, path[0], Key(prefix, path));
    }
  }

  lemma UnderChild(prefix: string, k: string, key: string)
    requires Under(prefix + "." + k, key)
    ensures Under(prefix, key) && key != prefix
  {
    assert prefix + "." <= prefix + "." + k;
    assert prefix + "." + k <= key;
  }

  function FirstDot(s: string): (r: nat)
    ensures r <= |s| && DotFree(s[..r]) && (r < |s| ==> s[r] == '.')
  {
    if s == [] || s[0] == '.' then 0
    else
      var rest := FirstDot(s[1..]);
      assert s[..rest + 1] == [s[0]] + s[1..][..rest];
      rest + 1
  }

  lemma {:induction false} FirstDotIs(s: string, k: string)
    requires k <= s && DotFree(k) && (|k| < |s| ==> s[|k|] == '.')
    ensures FirstDot(s) == |k|
    decreases |k|
  {
    if k != [] {
      assert s[0] == k[0] && k[0] in k;
      FirstDotIs(s[1..], k[1..]);
    }
  }

  lemma NameBelow(prefix: string, k: string, key: string)
    requires DotFree(k) && Under(prefix + "." + k, key)
    ensures |prefix| < |key| && k == key[|prefix| + 1..][..FirstDot(key[|prefix| + 1..])]
  {
    var child, rest := prefix + "." + k, key[|prefix| + 1..];
    assert child <= key && rest[..|k|] == child[|prefix| + 1..] == k;
    if key != child {
      assert (child + ".")[|child|] == key[|child|] == rest[|k|];
    }
    FirstDotIs(rest, k);
  }

  /** Two dot-free names below one prefix do not share a key. */
  lemma ChildrenApart(prefix: string, k: string, l: string, key: string)
    requires DotFree(k) && DotFree(l) && Under(prefix + "." + k, key) && Under(prefix + "." + l, key)
    ensures k == l
  {
    NameBelow(prefix, k, key);
    NameBelow(prefix, l, key);
  }

  /** Every key below a prefix spells a path of dot-free names. */
  lemma {:induction false} PathOf(prefix: string, key: string) returns (path: seq<string>)
    requires Under(prefix, key)
    ensures DotFreePath(path) && Key(prefix, path) == key
    decreases |key| - |prefix|
  {
    if key == prefix {
      path := [];
    } else {
      var rest := key[|prefix| + 1..];
      assert key == prefix + "." + rest;
      var n := FirstDot(rest);
      var name := rest[..n];
      var next := prefix + "." + name;
      if n == |rest| {
        path := [name];
        assert path[1..] == [];
      } else {
        assert rest == name + "." + rest[n + 1..];
        assert key == next + "." + rest[n + 1..];
        var tail := PathOf(next, key);
        path := [name] + tail;
        assert path[1..] == tail;
      }
    }
  }

  // ---- The walk

  /** Nothing but the prefix and the keys below it changed. */
  ghost predicate Outside(before: Bag, after: Bag, prefix: string)
  {
    forall key :: !Under(prefix, key) ==> Get(after, key) == Get(before, key)
  }

  /** At and below the prefix the bag says what the document says, and is unchanged where it says nothing. */
  ghost predicate Inside(f: Foreign, before: Bag, after: Bag, prefix: string, j: Json, mark: bool)
  {
    forall path :: DotFreePath(path) ==> Said(f, before, after, prefix, j, mark, path)
  }

  ghost predicate Said(f: Foreign, before: Bag, after: Bag, prefix: string, j: Json, mark: bool, path: seq<string>)
  {
    Get(after, Key(prefix, path)) ==
      if Expected(f, j, path, mark).Some? then Expected(f, j, path, mark) else Get(before, Key(prefix, path))
  }

  ghost predicate Flattened(f: Foreign, before: Bag, after: Bag, prefix: string, j: Json, mark: bool)
  {
    Outside(before, after, prefix) && Inside(f, before, after, prefix, j, mark)
  }

  method ArrayMembers(f: Foreign, items: seq<Json>) returns (ok: bool, members: set<string>)
    ensures ok <==> !AnyCompound(items)
    ensures ok ==> members == Members(f, items)
  {
    members := {};
    for i := 0 to |items|
      invariant !AnyCompound(items[..i]) && members == Members(f, items[..i])
    {
      var item := items[i];
      assert items[..i + 1] == items[..i] + [item];
      if Compound(item) {
        return false, members;
      }
      MembersSnoc(f, items[..i], item);
      var text := ScalarText(f, item);
      if text.Some? {
        members := members + {text.value};
      }
    }
    assert items[..|items|] == items;
    return true, members;
  }

  lemma MembersSnoc(f: Foreign, items: seq<Json>, item: Json)
    ensures Members(f, items + [item]) ==
      Members(f, items) + (if ScalarText(f, item).Some? then {ScalarText(f, item).value} else {})
    ensures AnyCompound(items + [item]) <==> AnyCompound(items) || Compound(item)
  {
    var all := items + [item];
    assert forall i :: 0 <= i < |items| ==> all[i] == items[i];
    assert all[|items|] == item;
  }

  /** A document that is a leaf to the walk writes at most its own key. */
  lemma LeafFlattened(f: Foreign, before: Bag, prefix: string, j: Json, mark: bool, after: Bag)
    requires !j.Obj?
    requires after == if Classified(f, j, mark).Some? then before[prefix := Classified(f, j, mark).value] else before
    ensures Flattened(f, before, after, prefix, j, mark)
  {
    forall path | DotFreePath(path)
      ensures Said(f, before, after, prefix, j, mark, path)
    {
      if path != [] {
        KeyUnder(prefix + "." + path[0], path[1..]);
        UnderChild(prefix, path[0], Key(prefix, path));
      }
    }
  }

  /** The part of an object walked so far, as a document. */
  function Walked(j: Json, left: set<string>): (r: Json)
    requires j.Obj?
  {
    Obj(map k | k in j.fields && k !in left :: j.fields[k])
  }

  lemma WalkedStart(f: Foreign, before: Bag, prefix: string, j: Json, mark: bool, after: Bag)
    requires j.Obj?
    requires after == if mark then before[prefix := NonScalar] else before
    ensures Flattened(f, before, after, prefix, Walked(j, j.fields.Keys), mark)
  {
    var none := Walked(j, j.fields.Keys);
    forall path | DotFreePath(path)
      ensures Said(f, before, after, prefix, none, mark, path)
    {
      if path != [] {
        KeyUnder(prefix + "." + path[0], path[1..]);
        UnderChild(prefix, path[0], Key(prefix, path));
      }
    }
  }

  lemma WalkedStep(f: Foreign, before: Bag, mid: Bag, after: Bag, prefix: string, j: Json, mark: bool,
                   left: set<string>, k: string)
    requires j.Obj? && DotFreeKeys(j) && left <= j.fields.Keys && k in left
    requires Flattened(f, before, mid, prefix, Walked(j, left), mark)
    requires Flattened(f, mid, after, prefix + "." + k, j.fields[k], mark)
    ensures Flattened(f, before, after, prefix, Walked(j, left - {k}), mark)
  {
    var child := prefix + "." + k;
    forall key | !Under(prefix, key)
      ensures Get(after, key) == Get(before, key)
    {
      if Under(child, key) {
        UnderChild(prefix, k, key);
      }
    }
    forall path | DotFreePath(path)
      ensures Said(f, before, after, prefix, Walked(j, left - {k}), mark, path)
    {
      assert Said(f, before, mid, prefix, Walked(j, left), mark, path);
      var key := Key(prefix, path);
      if path == [] {
        if Under(child, key) {
          UnderChild(prefix, k, key);
        }
        assert Get(after, key) == Get(mid, key);
      } else if path[0] == k {
        assert DotFreePath(path[1..]);
        assert Said(f, mid, after, child, j.fields[k], mark, path[1..]);
      } else {
        KeyUnder(prefix + "." + path[0], path[1..]);
        if Under(child, key) {
          ChildrenApart(prefix, k, path[0], key);
        }
        assert Get(after, key) == Get(mid, key);
      }
    }
  }

  lemma WalkedAll(j: Json)
    requires j.Obj?
    ensures Walked(j, {}) == j
  {
    assert Walked(j, {}).fields == j.fields;
  }

  lemma OutsideChild(before: Bag, mid: Bag, after: Bag, prefix: string, k: string)
    requires Outside(before, mid, prefix) && Outside(mid, after, prefix + "." + k)
    ensures Outside(before, after, prefix)
  {
    forall key | !Under(prefix, key)
      ensures Get(after, key) == Get(before, key)
    {
      if Under(prefix + "." + k, key) {
        UnderChild(prefix, k, key);
      }
    }
  }

  // ---- An object walked under the empty prefix

  /** Nothing but the top-level names and the keys below them changed. */
  ghost predicate RootOutside(before: Bag, after: Bag, j: Json)
    requires j.Obj?
  {
    forall key :: (forall k :: k in j.fields ==> !Under(k, key)) ==> Get(after, key) == Get(before, key)
  }

  /** At and below each top-level name the bag says what that field says. */
  ghost predicate RootInside(f: Foreign, before: Bag, after: Bag, j: Json, mark: bool)
    requires j.Obj?
  {
    forall k :: k in j.fields ==> Inside(f, before, after, k, j.fields[k], mark)
  }

  lemma RootOutsideStep(before: Bag, mid: Bag, after: Bag, j: Json, left: set<string>, k: string)
    requires j.Obj? && left <= j.fields.Keys && k in left
    requires RootOutside(before, mid, Walked(j, left)) && Outside(mid, after, k)
    ensures RootOutside(before, after, Walked(j, left - {k}))
  {
    var was, now := Walked(j, left), Walked(j, left - {k});
    forall key | forall l :: l in now.fields ==> !Under(l, key)
      ensures Get(after, key) == Get(before, key)
    {
      assert k in now.fields;
      assert forall l :: l in was.fields ==> l in now.fields;
    }
  }

  lemma TopNamesApart(k: string, l: string, key: string)
    requires DotFree(k) && DotFree(l) && Under(k, key) && Under(l, key)
    ensures k == l
  {
    assert k != key ==> (k + ".")[|k|] == key[|k|];
    assert l != key ==> (l + ".")[|l|] == key[|l|];
    FirstDotIs(key, k);
    FirstDotIs(key, l);
  }

  lemma RootInsideStep(f: Foreign, before: Bag, mid: Bag, after: Bag, j: Json, mark: bool, left: set<string>, k: string)
    requires j.Obj? && DotFreeKeys(j) && left <= j.fields.Keys && k in left
    requires RootOutside(before, mid, Walked(j, left)) && RootInside(f, before, mid, Walked(j, left), mark)
    requires Flattened(f, mid, after, k, j.fields[k], mark)
    ensures RootInside(f, before, after, Walked(j, left - {k}), mark)
  {
    var was, now := Walked(j, left), Walked(j, left - {k});
    forall l, path | l in now.fields && DotFreePath(path)
      ensures Said(f, before, after, l, now.fields[l], mark, path)
    {
      var key := Key(l, path);
      KeyUnder(l, path);
      if l == k {
        assert Said(f, mid, after, k, j.fields[k], mark, path);
        forall m | m in was.fields
          ensures !Under(m, key)
        {
          if Under(m, key) {
            TopNamesApart(m, k, key);
          }
        }
        assert Get(mid, key) == Get(before, key);
      } else {
        assert l in was.fields && Inside(f, before, mid, l, was.fields[l], mark);
        assert Said(f, before, mid, l, was.fields[l], mark, path);
        if Under(k, key) {
          TopNamesApart(l, k, key);
        }
        assert Get(after, key) == Get(mid, key);
      }
    }
  }

  /** Under the empty prefix the field has keys of its own: it is no object under an empty name. */
  predicate Rooted(j: Json, k: string)
    requires j.Obj? && k in j.fields
  {
    k != "" || !j.fields[k].Obj?
  }

  predicate AllRooted(j: Json)
    requires j.Obj?
  {
    forall k :: k in j.fields ==> Rooted(j, k)
  }

  /** One field more, under either kind of prefix. */
  lemma StepTaken(f: Foreign, before: Bag, mid: Bag, after: Bag, prefix: string, j: Json, mark: bool,
                  left: set<string>, k: string)
    requires j.Obj? && left <= j.fields.Keys && k in left
    requires var child := if prefix == "" then k else prefix + "." + k;
      child != "" || !j.fields[k].Obj? ==>
        && Outside(mid, after, child)
        && (DotFreeKeys(j.fields[k]) ==> Flattened(f, mid, after, child, j.fields[k], mark))
    ensures prefix != "" && Outside(before, mid, prefix) ==> Outside(before, after, prefix)
    ensures prefix != "" && DotFreeKeys(j) && Flattened(f, before, mid, prefix, Walked(j, left), mark) ==>
      Flattened(f, before, after, prefix, Walked(j, left - {k}), mark)
    ensures prefix == "" && Rooted(j, k) && RootOutside(before, mid, Walked(j, left)) ==>
      RootOutside(before, after, Walked(j, left - {k}))
    ensures prefix == "" && Rooted(j, k) && DotFreeKeys(j) && RootOutside(before, mid, Walked(j, left)) ==>
      RootInside(f, before, mid, Walked(j, left), mark) ==>
      RootInside(f, before, after, Walked(j, left - {k}), mark)
  {
    if prefix != "" {
      if Outside(before, mid, prefix) {
        OutsideChild(before, mid, after, prefix, k);
      }
      if DotFreeKeys(j) && Flattened(f, before, mid, prefix, Walked(j, left), mark) {
        WalkedStep(f, before, mid, after, prefix, j, mark, left, k);
      }
    } else if Rooted(j, k) && RootOutside(before, mid, Walked(j, left)) {
      RootOutsideStep(before, mid, after, j, left, k);
      if DotFreeKeys(j) && RootInside(f, before, mid, Walked(j, left), mark) {
        RootInsideStep(f, before, mid, after, j, mark, left, k);
      }
    }
  }

  /**
   * `walk_inner`, the keys of each object in any order. It touches only the prefix and keys below it; with
   * dot-free object keys it leaves exactly the flattened document there. An object under the empty prefix
   * has no key of its own, and each of its fields is walked under that field's name. (An object under an
   * empty name is walked at the root again, where it may meet the keys of its siblings.)
   */
  method WalkInner(f: Foreign, j: Json, prefix: string, bag: AttributeBag, mark: bool)
    modifies bag
    ensures prefix != "" || !j.Obj? ==> Outside(old(bag.attrs), bag.attrs, prefix)
    ensures (prefix != "" || !j.Obj?) && DotFreeKeys(j) ==>
      Flattened(f, old(bag.attrs), bag.attrs, prefix, j, mark)
    ensures prefix == "" && j.Obj? && AllRooted(j) ==> RootOutside(old(bag.attrs), bag.attrs, j)
    ensures prefix == "" && j.Obj? && AllRooted(j) && DotFreeKeys(j) ==>
      RootInside(f, old(bag.attrs), bag.attrs, j, mark)
    decreases j
  {
    ghost var before := bag.attrs;
    match j {
      case Obj(fields) =>
        if mark && prefix != "" {
          bag.Set(prefix, NonScalar);
        }
        if prefix != "" {
          WalkedStart(f, before, prefix, j, mark, bag.attrs);
        }
        var left := fields.Keys;
        while left != {}
          invariant left <= fields.Keys
          invariant prefix != "" ==> Outside(before, bag.attrs, prefix)
          invariant prefix != "" && DotFreeKeys(j) ==> Flattened(f, before, bag.attrs, prefix, Walked(j, left), mark)
          invariant prefix == "" && AllRooted(j) ==> RootOutside(before, bag.attrs, Walked(j, left))
          invariant prefix == "" && AllRooted(j) && DotFreeKeys(j) ==>
            RootInside(f, before, bag.attrs, Walked(j, left), mark)
          decreases |left|
        {
          var k :| k in left;
          ghost var mid := bag.attrs;
          WalkInner(f, fields[k], if prefix == "" then k else prefix + "." + k, bag, mark);
          StepTaken(f, before, mid, bag.attrs, prefix, j, mark, left, k);
          left := left - {k};
        }
        WalkedAll(j);
      case Arr(items) =>
        var ok, members := ArrayMembers(f, items);
        if ok {
          bag.Set(prefix, StringSetValue(members));
        } else if mark {
          bag.Set(prefix, NonScalar);
        }
        LeafFlattened(f, before, prefix, j, mark, bag.attrs);
      case _ =>
        var value := Classified(f, j, mark);
        if value.Some? {
          bag.Set(prefix, value.value);
        }
        LeafFlattened(f, before, prefix, j, mark, bag.attrs);
    }
  }

  // ---- What it means

  /** The outcome of a walk does not depend on the order keys were taken in. */
  lemma {:induction false} FlattenedUnique(f: Foreign, before: Bag, a: Bag, b: Bag, prefix: string, j: Json, mark: bool)
    requires Flattened(f, before, a, prefix, j, mark) && Flattened(f, before, b, prefix, j, mark)
    ensures a == b
  {
    forall key
      ensures Get(a, key) == Get(b, key)
    {
      if Under(prefix, key) {
        var path := PathOf(prefix, key);
        assert Said(f, before, a, prefix, j, mark, path) && Said(f, before, b, prefix, j, mark, path);
      }
    }
    SameBags(a, b);
  }

  lemma SameBags(a: Bag, b: Bag)
    requires forall key :: Get(a, key) == Get(b, key)
    ensures a == b
  {
    assert forall key :: key in a <==> Get(a, key).Some?;
    assert forall key :: key in b <==> Get(b, key).Some?;
    assert a.Keys == b.Keys;
    assert forall key :: key in a ==> a[key] == Get(a, key).value;
  }

  ghost predicate Clear(bag: Bag, prefix: string)
  {
    forall key :: Under(prefix, key) ==> Get(bag, key).None?
  }

  /**
   * Flat index and tree agree: into a bag with nothing under the prefix, the joined path reads back the
   * classified node at that path, and with markers on it is absent exactly when the path is.
   */
  lemma {:induction false} LookupExactly(f: Foreign, before: Bag, after: Bag, prefix: string, j: Json, mark: bool,
                                         path: seq<string>)
    requires Flattened(f, before, after, prefix, j, mark) && Clear(before, prefix) && DotFreePath(path)
    ensures Get(after, Key(prefix, path)) == Expected(f, j, path, mark)
    ensures mark ==> (Get(after, Key(prefix, path)).None? <==> NodeAt(j, path).None?)
  {
    assert Said(f, before, after, prefix, j, mark, path);
    KeyUnder(prefix, path);
  }

  /** The text a scalar goes into a set as; null, arrays and objects have none. */
  ghost predicate ShowsAs(f: Foreign, item: Json, text: string)
  {
    || item == Str(text)
    || (item == Bool(true) && text == "true") || (item == Bool(false) && text == "false")
    || exists n :: item == Num(n) && text == f.showNumber(n)
  }

  /** What a policy reads where the document holds a node: scalars as they are, arrays of scalars as sets. */
  ghost predicate ReadsAs(f: Foreign, node: Json, mark: bool, got: Option<AttributeValue>)
  {
    var marker := if mark then Some(NonScalar) else None;
    match node
    case Str(s) => got == Some(StringValue(s))
    case Bool(b) => got == Some(BoolValue(b))
    case Num(Whole(n)) =>
      got == if -0x8000_0000_0000_0000 <= n < 0x8000_0000_0000_0000 then Some(IntValue(n))
             else Some(FloatValue(Finite(f.intAsF64(n))))
    case Num(Fractional(x)) => got == Some(FloatValue(Finite(x)))
    case Null => got == marker
    case Obj(_) => got == marker
    case Arr(items) =>
      if exists i :: 0 <= i < |items| && (items[i].Arr? || items[i].Obj?) then got == marker
      else
        && got.Some? && got.value.StringSetValue?
        && forall text :: text in got.value.members <==> exists i :: 0 <= i < |items| && ShowsAs(f, items[i], text)
  }

  lemma ShownAs(f: Foreign, item: Json, text: string)
    ensures ScalarText(f, item) == Some(text) <==> ShowsAs(f, item, text)
  {
  }

  lemma ClassifiedReads(f: Foreign, node: Json, mark: bool)
    ensures ReadsAs(f, node, mark, Classified(f, node, mark))
  {
    if node.Arr? && !AnyCompound(node.items) {
      forall text
        ensures text in Members(f, node.items) <==> exists i :: 0 <= i < |node.items| && ShowsAs(f, node.items[i], text)
      {
        if text in Members(f, node.items) {
          var i :| 0 <= i < |node.items| && ScalarText(f, node.items[i]) == Some(text);
          ShownAs(f, node.items[i], text);
        }
        if i :| 0 <= i < |node.items| && ShowsAs(f, node.items[i], text) {
          ShownAs(f, node.items[i], text);
        }
      }
    }
  }

  /** What a policy finds at a joined path is the value of the node there. */
  lemma {:induction false} LookupReads(f: Foreign, before: Bag, after: Bag, prefix: string, j: Json, mark: bool,
                                       path: seq<string>)
    requires Flattened(f, before, after, prefix, j, mark) && Clear(before, prefix) && DotFreePath(path)
    ensures match NodeAt(j, path)
      case None => Get(after, Key(prefix, path)) == None
      case Some(node) => ReadsAs(f, node, mark, Get(after, Key(prefix, path)))
  {
    LookupExactly(f, before, after, prefix, j, mark, path);
    if NodeAt(j, path).Some? {
      ClassifiedReads(f, NodeAt(j, path).value, mark);
    }
  }

  /** And nothing else is there: every key found under the prefix names a node of the document. */
  lemma {:induction false} NoStrayKeys(f: Foreign, before: Bag, after: Bag, prefix: string, j: Json, mark: bool,
                                       key: string)
    returns (path: seq<string>)
    requires Flattened(f, before, after, prefix, j, mark) && Clear(before, prefix)
    requires Under(prefix, key) && key in after
    ensures DotFreePath(path) && Key(prefix, path) == key && NodeAt(j, path).Some?
  {
    path := PathOf(prefix, key);
    LookupExactly(f, before, after, prefix, j, mark, path);
  }

  /** Neither prefix lies at or below the other. */
  ghost predicate Apart(p: string, q: string)
  {
    forall key :: !(Under(p, key) && Under(q, key))
  }

  lemma {:induction false} NamespacesApart()
    ensures Apart("args", "result") && Apart("args", "data") && Apart("result", "data")
  {
    forall key
      ensures !(Under("args", key) && Under("result", key))
      ensures !(Under("args", key) && Under("data", key))
      ensures !(Under("result", key) && Under("data", key))
    {
      assert Under("args", key) ==> "args" <= key;
      assert Under("result", key) ==> "result" <= key;
      assert Under("data", key) ==> "data" <= key;
      assert "args"[0] == 'a' && "result"[0] == 'r' && "data"[0] == 'd';
    }
  }

  /** Extractions under separate prefixes commute. */
  lemma {:induction false} FlattenCommutes(f: Foreign, start: Bag, p: string, x: Json, px: bool, q: string, y: Json,
                                           qy: bool,
                        first: Bag, both: Bag, other: Bag, swapped: Bag)
    requires Apart(p, q)
    requires Flattened(f, start, first, p, x, px) && Flattened(f, first, both, q, y, qy)
    requires Flattened(f, start, other, q, y, qy) && Flattened(f, other, swapped, p, x, px)
    ensures both == swapped
  {
    forall key
      ensures Get(both, key) == Get(swapped, key)
    {
      if Under(p, key) {
        var path := PathOf(p, key);
        assert Said(f, start, first, p, x, px, path) && Said(f, other, swapped, p, x, px, path);
      } else if Under(q, key) {
        var path := PathOf(q, key);
        assert Said(f, first, both, q, y, qy, path) && Said(f, start, other, q, y, qy, path);
      }
    }
    SameBags(both, swapped);
  }
}

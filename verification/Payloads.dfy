/** The request payload, and reads and writes at concrete paths into its JSON. */
module Payloads {
  import opened Values
  import opened Text

  /** Whether the host supplied a parsed LLM request, and whether either document nests too deep. */
  datatype Structured = Structured(hasLlmRequest: bool, tooDeep: bool)

  datatype Payload = Payload(args: Json, result: Option<Json>, structured: Structured)

  /** `str::parse::<usize>` on a 64-bit target. */
  function ParseIndex(s: string): (r: Option<nat>)
  {
    var digits := if s != [] && s[0] == '+' then s[1..] else s;
    if digits == [] || !AllDigits(digits) then None
    else if DigitsValue(digits) < 0x1_0000_0000_0000_0000 then Some(DigitsValue(digits)) else None
  }

  function Child(j: Json, segment: string): (r: Option<Json>)
    ensures r.Some? ==> r.value < j
  {
    match j
    case Obj(fields) => if segment in fields then Some(fields[segment]) else None
    case Arr(items) =>
      (match ParseIndex(segment)
       case Some(i) => if i < |items| then Some(items[i]) else None
       case None => None)
    case _ => None
  }

  function GetAt(root: Json, path: seq<string>): (r: Option<Json>)
    decreases |path|
  {
    if path == [] then Some(root)
    else
      match Child(root, path[0])
      case Some(child) => GetAt(child, path[1..])
      case None => None
  }

  /** The value with its child at `segment` replaced, when there is one. */
  function WithChild(j: Json, segment: string, child: Json): (r: Option<Json>)
  {
    match j
    case Obj(fields) => Some(Obj(fields[segment := child]))
    case Arr(items) =>
      (match ParseIndex(segment)
       case Some(i) => if i < |items| then Some(Arr(items[i := child])) else None
       case None => None)
    case _ => None
  }

  /** `set_concrete`: nothing when a parent is missing or is a scalar. */
  function SetAt(root: Json, path: seq<string>, value: Json): (r: Option<Json>)
    decreases |path|
  {
    if path == [] then Some(value)
    else if |path| == 1 then WithChild(root, path[0], value)
    else
      match Child(root, path[0])
      case None => None
      case Some(child) =>
        match SetAt(child, path[1..], value)
        case None => None
        case Some(updated) => WithChild(root, path[0], updated)
  }

  function WithoutChild(j: Json, segment: string): (r: Option<Json>)
  {
    match j
    case Obj(fields) => if segment in fields then Some(Obj(fields - {segment})) else None
    case Arr(items) =>
      (match ParseIndex(segment)
       case Some(i) => if i < |items| then Some(Arr(items[..i] + items[i + 1..])) else None
       case None => None)
    case _ => None
  }

  /** `remove_concrete`. */
  function RemoveAt(root: Json, path: seq<string>): (r: Option<Json>)
    decreases |path|
  {
    if path == [] then None
    else if |path| == 1 then WithoutChild(root, path[0])
    else
      match Child(root, path[0])
      case None => None
      case Some(child) =>
        match RemoveAt(child, path[1..])
        case None => None
        case Some(updated) => WithChild(root, path[0], updated)
  }

  /** A write is read back at its own path. */
  lemma {:induction false} SetThenGet(root: Json, path: seq<string>, value: Json)
    requires SetAt(root, path, value).Some?
    ensures GetAt(SetAt(root, path, value).value, path) == Some(value)
    decreases |path|
  {
    if |path| == 1 {
      assert path[1..] == [];
    } else if |path| > 1 {
      SetThenGet(Child(root, path[0]).value, path[1..], value);
    }
  }

  /**
   * A write takes exactly where the parent is an object, which gains the key if need be, or the path already
   * leads somewhere; a removal takes exactly where a path below the root leads somewhere.
   */
  lemma {:induction false} WritesExactly(root: Json, path: seq<string>, value: Json)
    ensures SetAt(root, path, value).Some? <==>
      path == [] || GetAt(root, path).Some? ||
      (GetAt(root, path[..|path| - 1]).Some? && GetAt(root, path[..|path| - 1]).value.Obj?)
    ensures RemoveAt(root, path).Some? <==> path != [] && GetAt(root, path).Some?
    decreases |path|
  {
    if |path| == 1 {
      assert path[1..] == [] && path[..0] == [];
    } else if |path| > 1 {
      assert path[..|path| - 1][1..] == path[1..][..|path| - 2];
      if Child(root, path[0]).Some? {
        WritesExactly(Child(root, path[0]).value, path[1..], value);
      }
    }
  }

  /**
   * What a path leads to: the object's value under the key, the array's element under its number as written
   * in decimal, nothing below a scalar; and a longer path goes on from where a shorter one leads.
   */
  lemma {:induction false} PathsLead(root: Json, fields: map<string, Json>, key: string, items: seq<Json>, i: nat,
                                     p: seq<string>, q: seq<string>)
    requires i < 0x1_0000_0000_0000_0000
    ensures GetAt(Obj(fields), [key]) == if key in fields then Some(fields[key]) else None
    ensures GetAt(Arr(items), [NatText(i)]) == if i < |items| then Some(items[i]) else None
    ensures GetAt(Arr(items), ["+" + NatText(i)]) == GetAt(Arr(items), [NatText(i)])
    ensures GetAt(Arr(items), ["-" + key]) == None
    ensures !root.Obj? && !root.Arr? ==> GetAt(root, [key]) == None
    ensures GetAt(root, []) == Some(root)
    ensures GetAt(root, p + q) == match GetAt(root, p) case Some(v) => GetAt(v, q) case None => None
    decreases |p|
  {
    assert [key][1..] == [] && [NatText(i)][1..] == [];
    NatTextValue(i);
    assert ParseIndex(NatText(i)) == Some(i);
    assert ("+" + NatText(i))[1..] == NatText(i);
    assert ("-" + key)[0] == '-' && !IsDigit('-');
    if p == [] {
      assert p + q == q;
    } else {
      assert (p + q)[0] == p[0] && (p + q)[1..] == p[1..] + q;
      if Child(root, p[0]).Some? {
        PathsLead(Child(root, p[0]).value, fields, key, items, i, p[1..], q);
      }
    }
  }

  predicate SameSlot(j: Json, a: string, b: string)
  {
    a == b || (j.Arr? && ParseIndex(a).Some? && ParseIndex(a) == ParseIndex(b))
  }

  /** A write at one path leaves every path that parts from it unchanged. */
  lemma {:induction false} SetElsewhere(root: Json, path: seq<string>, value: Json, other: seq<string>, k: nat)
    requires SetAt(root, path, value).Some? && k < |path| && k < |other| && path[..k] == other[..k]
    requires GetAt(root, path[..k]).Some? && !SameSlot(GetAt(root, path[..k]).value, path[k], other[k])
    ensures GetAt(SetAt(root, path, value).value, other) == GetAt(root, other)
    decreases |path|
  {
    if k > 0 {
      assert path[..k][0] == other[..k][0] == path[0] == other[0];
      assert path[..k][1..] == path[1..][..k - 1] && other[..k][1..] == other[1..][..k - 1];
      SetElsewhere(Child(root, path[0]).value, path[1..], value, other[1..], k - 1);
    }
  }
}

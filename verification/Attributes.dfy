/** The attribute bag: a flat namespace of typed values, and keyed-path interpolation. */
module Attributes {
  import opened Values
  import opened Text

  type Bag = map<string, AttributeValue>

  function Get(bag: Bag, key: string): (r: Option<AttributeValue>)
  {
    if key in bag then Some(bag[key]) else None
  }

  function GetBool(bag: Bag, key: string): (r: Option<bool>)
  {
    if key in bag && bag[key].BoolValue? then Some(bag[key].b) else None
  }

  function GetString(bag: Bag, key: string): (r: Option<string>)
  {
    if key in bag && bag[key].StringValue? then Some(bag[key].s) else None
  }

  function GetStringSet(bag: Bag, key: string): (r: Option<set<string>>)
  {
    if key in bag && bag[key].StringSetValue? then Some(bag[key].members) else None
  }

  /** The scalar at `key` as a path segment; a set or a container cannot index a path. */
  function ScalarAsString(f: Foreign, bag: Bag, key: string): (r: Option<string>)
  {
    match Get(bag, key)
    case Some(StringValue(s)) => Some(s)
    case Some(IntValue(i)) => Some(IntText(i))
    case Some(BoolValue(b)) => Some(if b then "true" else "false")
    case Some(FloatValue(x)) => Some(f.showF64(x))
    case _ => None
  }

  /**
   * `resolve_key` as a specification: each `[inner]` group becomes `.` and the scalar at `inner`.
   * A missing `]` or an unresolvable `inner` leaves no key at all.
   */
  function ResolveKey(f: Foreign, bag: Bag, key: string): (r: Option<string>)
    decreases |key|
  {
    match IndexOf(key, '[', 0)
    case None => Some(key)
    case Some(open) =>
      match IndexOf(key, ']', open + 1)
      case None => None
      case Some(close) =>
        match ScalarAsString(f, bag, Trim(key[open + 1..close]))
        case None => None
        case Some(scalar) =>
          match ResolveKey(f, bag, key[close + 1..])
          case None => None
          case Some(rest) => Some(key[..open] + "." + scalar + rest)
  }

  /** An attribute path split at its interpolation groups: plain text, or text, a group, and the rest. */
  datatype Template = Plain(text: string) | Group(text: string, inner: string, rest: Template)

  predicate WellFormed(t: Template)
  {
    match t
    case Plain(text) => '[' !in text
    case Group(text, inner, rest) => '[' !in text && ']' !in inner && WellFormed(rest)
  }

  function Spelling(t: Template): (s: string)
  {
    match t
    case Plain(text) => text
    case Group(text, inner, rest) => text + "[" + inner + "]" + Spelling(rest)
  }

  /** What a template stands for in a bag. Substituted text is never scanned for further groups. */
  function Render(f: Foreign, bag: Bag, t: Template): (r: Option<string>)
  {
    match t
    case Plain(text) => Some(text)
    case Group(text, inner, rest) =>
      var scalar := ScalarAsString(f, bag, Trim(inner));
      var tail := Render(f, bag, rest);
      if scalar.Some? && tail.Some? then Some(text + "." + scalar.value + tail.value) else None
  }

  lemma {:induction false} FirstIndex(s: string, c: char, i: nat, k: nat)
    requires i <= k < |s| && s[k] == c && c !in s[i..k]
    ensures IndexOf(s, c, i) == Some(k)
    decreases k - i
  {
    if i < k {
      assert s[i] in s[i..k];
      assert forall x :: x in s[i + 1..k] ==> x in s[i..k];
      FirstIndex(s, c, i + 1, k);
    }
  }

  lemma {:induction false} NoIndex(s: string, c: char, i: nat)
    requires i <= |s| && c !in s
    ensures IndexOf(s, c, i) == None
    decreases |s| - i
  {
    if i < |s| {
      NoIndex(s, c, i + 1);
    }
  }

  /** Resolving a spelled template renders it, for every template, bag and substituted value. */
  lemma {:induction false} ResolveRenders(f: Foreign, bag: Bag, t: Template)
    requires WellFormed(t)
    ensures ResolveKey(f, bag, Spelling(t)) == Render(f, bag, t)
  {
    match t
    case Plain(text) =>
      NoIndex(text, '[', 0);
    case Group(text, inner, rest) =>
      var key := Spelling(t);
      var open := |text|;
      var close := open + 1 + |inner|;
      assert key[..open] == text;
      assert key[0..open] == text;
      FirstIndex(key, '[', 0, open);
      assert key[open + 1..close] == inner;
      FirstIndex(key, ']', open + 1, close);
      assert key[close + 1..] == Spelling(rest);
      ResolveRenders(f, bag, rest);
  }

  /** The text a scalar is written as in a path. */
  ghost predicate WrittenAs(f: Foreign, a: AttributeValue, text: string)
  {
    || a == StringValue(text)
    || (a == BoolValue(true) && text == "true") || (a == BoolValue(false) && text == "false")
    || (a.IntValue? && text == IntText(a.i))
    || (a.FloatValue? && text == f.showF64(a.f))
  }

  /** A group resolves exactly when the bag holds a scalar under its trimmed text, and to that scalar as written. */
  lemma {:induction false} GroupResolves(f: Foreign, bag: Bag, text: string, inner: string, scalar: string)
    requires '[' !in text && ']' !in inner
    ensures ResolveKey(f, bag, text + "[" + inner + "]") == Some(text + "." + scalar) <==>
      Trim(inner) in bag && WrittenAs(f, bag[Trim(inner)], scalar)
  {
    var t := Group(text, inner, Plain(""));
    ResolveRenders(f, bag, t);
    assert Spelling(t) == text + "[" + inner + "]";
    var found := ScalarAsString(f, bag, Trim(inner));
    if found.Some? {
      assert text + "." + found.value + "" == text + "." + found.value;
      assert (text + "." + found.value)[|text| + 1..] == found.value;
      assert (text + "." + scalar)[|text| + 1..] == scalar;
    }
  }

  /** `head` in front of a resolved tail, when there is one. */
  function Prefixed(head: string, tail: Option<string>): (r: Option<string>)
  {
    if tail.Some? then Some(head + tail.value) else None
  }

  lemma PrefixedTwice(a: string, b: string, tail: Option<string>)
    ensures Prefixed(a, Prefixed(b, tail)) == Prefixed(a + b, tail)
    ensures Prefixed("", tail) == tail
  {
    if tail.Some? {
      assert a + (b + tail.value) == (a + b) + tail.value;
      assert "" + tail.value == tail.value;
    }
  }

  /** What is left of reaching `goal` once `out` is written: resolve `rest` behind it. */
  ghost predicate Owed(f: Foreign, bag: Bag, goal: Option<string>, out: string, rest: string)
  {
    goal == Prefixed(out, ResolveKey(f, bag, rest))
  }

  lemma ResolveStep(f: Foreign, bag: Bag, goal: Option<string>, out: string, rest: string, open: nat, close: nat,
                    scalar: string)
    requires Owed(f, bag, goal, out, rest)
    requires IndexOf(rest, '[', 0) == Some(open) && open < |rest| && IndexOf(rest, ']', open + 1) == Some(close)
    requires ScalarAsString(f, bag, Trim(rest[open + 1..close])) == Some(scalar)
    ensures Owed(f, bag, goal, out + (rest[..open] + "." + scalar), rest[close + 1..])
  {
    PrefixedTwice(out, rest[..open] + "." + scalar, ResolveKey(f, bag, rest[close + 1..]));
  }

  lemma ResolveStuck(f: Foreign, bag: Bag, goal: Option<string>, out: string, rest: string, open: nat,
                     close: Option<nat>)
    requires Owed(f, bag, goal, out, rest) && IndexOf(rest, '[', 0) == Some(open) && open < |rest|
    requires close == IndexOf(rest, ']', open + 1)
    requires close.Some? ==> ScalarAsString(f, bag, Trim(rest[open + 1..close.value])).None?
    ensures goal.None?
  {
  }

  lemma ResolveDone(f: Foreign, bag: Bag, goal: Option<string>, out: string, rest: string)
    requires Owed(f, bag, goal, out, rest) && IndexOf(rest, '[', 0).None?
    ensures goal == Some(out + rest)
  {
  }

  /** The mutable bag request extraction writes into. */
  class AttributeBag {
    var attrs: Bag

    constructor ()
      ensures attrs == map[]
    {
      attrs := map[];
    }

    /** Insert or replace the value at `key`. */
    method Set(key: string, value: AttributeValue)
      modifies this
      ensures attrs == old(attrs)[key := value]
    {
      attrs := attrs[key := value];
    }
  }

  /** `resolve_key` as written: one group per turn, the output growing from the left. */
  method Resolve(f: Foreign, bag: Bag, key: string) returns (r: Option<string>)
    ensures r == ResolveKey(f, bag, key)
  {
    var out, rest := "", key;
    ghost var goal := ResolveKey(f, bag, key);
    PrefixedTwice("", "", goal);
    var open := IndexOf(rest, '[', 0);
    while open.Some?
      invariant open == IndexOf(rest, '[', 0) && Owed(f, bag, goal, out, rest)
      decreases |rest|
    {
      var close := IndexOf(rest, ']', open.value + 1);
      var scalar := if close.None? then None else ScalarAsString(f, bag, Trim(rest[open.value + 1..close.value]));
      if scalar.None? {
        ResolveStuck(f, bag, goal, out, rest, open.value, close);
        return None;
      }
      ResolveStep(f, bag, goal, out, rest, open.value, close.value, scalar.value);
      out := out + (rest[..open.value] + "." + scalar.value);
      rest := rest[close.value + 1..];
      open := IndexOf(rest, '[', 0);
    }
    ResolveDone(f, bag, goal, out, rest);
    return Some(out + rest);
  }
}

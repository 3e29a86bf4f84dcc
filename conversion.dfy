/**
 * The recursive `to_dict` conversion of linkedin_scraper/utils.py and its
 * helper `custom_asdict`.  A Python value is modelled by `Value`; which
 * branch of `to_dict` applies is decided by the constructor, in the same
 * order as the source tests it (dataclass, scalar, list, dict, object with
 * `__dict__`, anything else).
 */
module Conversion {

  datatype Value =
    | VNone
    | VInt(i: int)
    | VStr(s: string)
    | VBool(b: bool)
    | VFloat(f: real)
    | VList(items: seq<Value>)
    /** A dict with string keys, in insertion order. */
    | VDict(entries: seq<(string, Value)>)
    /** A plain object; `attrs` is its `__dict__`. */
    | VObject(attrs: seq<(string, Value)>)
    /** A dataclass instance; `fields` follows `__dataclass_fields__`. */
    | VDataclass(fields: seq<(string, Value)>)
    /**
     * An `io.BufferedWriter`: `custom_asdict` leaves it out of a dataclass,
     * but anywhere else `to_dict` converts it through its `__dict__`, `attrs`.
     */
    | VWriter(attrs: seq<(string, Value)>)
    /** Any other value without `__dict__` (a tuple, a set, ...). */
    | VOther
  {
    /** The key/value pairs of a dict, an object, a writer or a dataclass. */
    function Pairs(): seq<(string, Value)>
      requires VDict? || VObject? || VWriter? || VDataclass?
    {
      match this
      case VDict(entries) => entries
      case VObject(attrs) => attrs
      case VWriter(attrs) => attrs
      case VDataclass(fields) => fields
    }
  }

  predicate IsPrivate(key: string) {
    |key| > 0 && key[0] == '_'
  }

  /** `to_dict(obj)`. */
  function ToDict(v: Value): Value
    decreases v, 1
  {
    match v
    case VDataclass(_) => VDict(Unprivate(AsDictFrom(v, 0)))
    case VInt(_) => v
    case VStr(_) => v
    case VBool(_) => v
    case VFloat(_) => v
    case VList(_) => VList(ListFrom(v, 0))
    case VDict(_) => VDict(PublicFrom(v, 0))
    case VObject(_) => VDict(PublicFrom(v, 0))
    case VWriter(_) => VDict(PublicFrom(v, 0))
    case VNone => VNone
    case VOther => VNone
  }

  /** `[to_dict(item) for item in items]`, from index `i` on. */
  function ListFrom(v: Value, i: nat): (r: seq<Value>)
    requires v.VList?
    ensures |r| == if i <= |v.items| then |v.items| - i else 0
    decreases v, 0, |v.items| - i
  {
    if i >= |v.items| then [] else [ToDict(v.items[i])] + ListFrom(v, i + 1)
  }

  /**
   * `{key: to_dict(value) for key, value in pairs if not key.startswith('_')}`,
   * from index `i` on.
   */
  function PublicFrom(v: Value, i: nat): seq<(string, Value)>
    requires v.VDict? || v.VObject? || v.VWriter? || v.VDataclass?
    decreases v, 0, |v.Pairs()| - i
  {
    if i >= |v.Pairs()| then []
    else if IsPrivate(v.Pairs()[i].0) then PublicFrom(v, i + 1)
    else [(v.Pairs()[i].0, ToDict(v.Pairs()[i].1))] + PublicFrom(v, i + 1)
  }

  /** `custom_asdict(obj)`: every field that is not a writer, converted, from index `i` on. */
  function AsDictFrom(v: Value, i: nat): seq<(string, Value)>
    requires v.VDataclass?
    decreases v, 0, |v.fields| - i
  {
    if i >= |v.fields| then []
    else if v.fields[i].1.VWriter? then AsDictFrom(v, i + 1)
    else [(v.fields[i].0, ToDict(v.fields[i].1))] + AsDictFrom(v, i + 1)
  }

  /** The entries whose keys are not private, unchanged and in order. */
  function Unprivate(entries: seq<(string, Value)>): (r: seq<(string, Value)>)
    ensures forall k :: 0 <= k < |entries| && !IsPrivate(entries[k].0) ==> entries[k] in r
    ensures forall k :: 0 <= k < |r| ==> r[k] in entries && !IsPrivate(r[k].0)
  {
    if |entries| == 0 then []
    else if IsPrivate(entries[0].0) then Unprivate(entries[1..])
    else [entries[0]] + Unprivate(entries[1..])
  }

  /** The values `to_dict` can return: JSON-like data without private keys. */
  predicate IsPlain(v: Value) {
    match v
    case VNone => true
    case VInt(_) => true
    case VStr(_) => true
    case VBool(_) => true
    case VFloat(_) => true
    case VList(items) => forall k :: 0 <= k < |items| ==> IsPlain(items[k])
    case VDict(entries) =>
      forall k :: 0 <= k < |entries| ==> !IsPrivate(entries[k].0) && IsPlain(entries[k].1)
    case _ => false
  }

  /** Everything `to_dict` returns is plain. */
  lemma {:induction false} ToDictIsPlain(v: Value)
    ensures IsPlain(ToDict(v))
    decreases v, 1
  {
    match v
    case VDataclass(_) =>
      AsDictIsPlain(v, 0);
      UnprivateKeepsPlain(AsDictFrom(v, 0));
    case VList(_) => ListFromIsPlain(v, 0);
    case VDict(_) => PublicFromIsPlain(v, 0);
    case VObject(_) => PublicFromIsPlain(v, 0);
    case VWriter(_) => PublicFromIsPlain(v, 0);
    case _ =>
  }

  lemma {:induction false} ListFromIsPlain(v: Value, i: nat)
    requires v.VList?
    ensures forall k :: 0 <= k < |ListFrom(v, i)| ==> IsPlain(ListFrom(v, i)[k])
    decreases v, 0, |v.items| - i
  {
    if i < |v.items| {
      ToDictIsPlain(v.items[i]);
      ListFromIsPlain(v, i + 1);
    }
  }

  lemma {:induction false} PublicFromIsPlain(v: Value, i: nat)
    requires v.VDict? || v.VObject? || v.VWriter? || v.VDataclass?
    ensures forall k :: 0 <= k < |PublicFrom(v, i)| ==>
      !IsPrivate(PublicFrom(v, i)[k].0) && IsPlain(PublicFrom(v, i)[k].1)
    decreases v, 0, |v.Pairs()| - i
  {
    if i < |v.Pairs()| {
      PublicFromIsPlain(v, i + 1);
      var ps := v.Pairs();
      if !IsPrivate(ps[i].0) {
        ToDictIsPlain(ps[i].1);
        var r, rest := PublicFrom(v, i), PublicFrom(v, i + 1);
        assert r == [(ps[i].0, ToDict(ps[i].1))] + rest;
        forall k | 0 <= k < |r| ensures !IsPrivate(r[k].0) && IsPlain(r[k].1) {
          if k > 0 { assert r[k] == rest[k - 1]; }
        }
      }
    }
  }

  lemma {:induction false} AsDictIsPlain(v: Value, i: nat)
    requires v.VDataclass?
    ensures forall k :: 0 <= k < |AsDictFrom(v, i)| ==> IsPlain(AsDictFrom(v, i)[k].1)
    decreases v, 0, |v.fields| - i
  {
    if i < |v.fields| {
      AsDictIsPlain(v, i + 1);
      if !v.fields[i].1.VWriter? {
        ToDictIsPlain(v.fields[i].1);
        var r, rest := AsDictFrom(v, i), AsDictFrom(v, i + 1);
        assert r == [(v.fields[i].0, ToDict(v.fields[i].1))] + rest;
        forall k | 0 <= k < |r| ensures IsPlain(r[k].1) {
          if k > 0 { assert r[k] == rest[k - 1]; }
        }
      }
    }
  }

  lemma {:induction false} UnprivateKeepsPlain(entries: seq<(string, Value)>)
    requires forall k :: 0 <= k < |entries| ==> IsPlain(entries[k].1)
    ensures IsPlain(VDict(Unprivate(entries)))
  {
    if |entries| > 0 {
      UnprivateKeepsPlain(entries[1..]);
    }
  }

  lemma {:induction false} UnprivateOfPublic(entries: seq<(string, Value)>)
    requires forall k :: 0 <= k < |entries| ==> !IsPrivate(entries[k].0)
    ensures Unprivate(entries) == entries
  {
    if |entries| > 0 {
      UnprivateOfPublic(entries[1..]);
    }
  }

  /** A plain value is converted to itself. */
  lemma {:induction false} PlainIsFixed(v: Value)
    requires IsPlain(v)
    ensures ToDict(v) == v
    decreases v, 1
  {
    match v
    case VList(items) =>
      PlainListIsFixed(v, 0);
      assert ListFrom(v, 0) == items[0..];
    case VDict(entries) =>
      PlainEntriesAreFixed(v, 0);
      assert entries[0..] == entries;
      UnprivateOfPublic(entries);
    case _ =>
  }

  lemma {:induction false} PlainListIsFixed(v: Value, i: nat)
    requires v.VList? && IsPlain(v) && i <= |v.items|
    ensures ListFrom(v, i) == v.items[i..]
    decreases v, 0, |v.items| - i
  {
    if i < |v.items| {
      PlainIsFixed(v.items[i]);
      PlainListIsFixed(v, i + 1);
      assert v.items[i..] == [v.items[i]] + v.items[i + 1..];
    }
  }

  /** On a dict whose values are plain, conversion keeps exactly the public entries. */
  lemma {:induction false} PlainEntriesAreFixed(v: Value, i: nat)
    requires v.VDict? && i <= |v.entries|
    requires forall k :: 0 <= k < |v.entries| ==> IsPlain(v.entries[k].1)
    ensures PublicFrom(v, i) == Unprivate(v.entries[i..])
    decreases v, 0, |v.entries| - i
  {
    if i < |v.entries| {
      PlainIsFixed(v.entries[i].1);
      PlainEntriesAreFixed(v, i + 1);
      assert v.entries[i..][1..] == v.entries[i + 1..];
    }
  }

  /**
   * The source converts a dataclass twice: `to_dict(custom_asdict(obj))`.
   * Converting the dict `custom_asdict` built once more only drops its
   * private keys, which is how `ToDict` states the dataclass case.
   */
  lemma DataclassSecondPass(v: Value)
    requires v.VDataclass?
    ensures ToDict(VDict(AsDictFrom(v, 0))) == ToDict(v)
  {
    AsDictIsPlain(v, 0);
    var d := VDict(AsDictFrom(v, 0));
    assert forall k :: 0 <= k < |d.entries| ==> IsPlain(d.entries[k].1);
    PlainEntriesAreFixed(d, 0);
    assert d.entries[0..] == d.entries;
  }

  /**
   * Scalars come back as they are; None and any value without `__dict__`
   * become None; a writer met outside a dataclass field is converted like
   * any object, so a fresh one becomes `{}`.
   */
  lemma ScalarsAndOthers(v: Value)
    ensures v.VInt? || v.VStr? || v.VBool? || v.VFloat? ==> ToDict(v) == v
    ensures v.VNone? || v.VOther? ==> ToDict(v) == VNone
    ensures v.VList? ==> ToDict(v).VList? && |ToDict(v).items| == |v.items|
    ensures v.VDict? || v.VObject? || v.VWriter? || v.VDataclass? ==> ToDict(v).VDict?
    ensures v == VWriter([]) ==> ToDict(v) == VDict([])
  {
  }

  /** `to_dict` is idempotent. */
  lemma ToDictIdempotent(v: Value)
    ensures ToDict(ToDict(v)) == ToDict(v)
  {
    ToDictIsPlain(v);
    PlainIsFixed(ToDict(v));
  }

  /** A list keeps its length and order; element `k` is converted in place. */
  lemma {:induction false} ListElementwise(v: Value, i: nat, k: nat)
    requires v.VList? && i <= k < |v.items|
    ensures |ListFrom(v, i)| == |v.items| - i
    ensures ListFrom(v, i)[k - i] == ToDict(v.items[k])
    decreases |v.items| - i
  {
    if i < k {
      ListElementwise(v, i + 1, k);
    }
  }

  /** `r` holds the entries of `src` in order, each value converted. */
  predicate ConvertedEntries(r: seq<(string, Value)>, src: seq<(string, Value)>) {
    |r| == |src| && forall k :: 0 <= k < |r| ==> r[k].0 == src[k].0 && r[k].1 == ToDict(src[k].1)
  }

  /** Converting one more entry in front keeps the entries converted. */
  lemma ConvertedCons(e: (string, Value), r: seq<(string, Value)>, src: seq<(string, Value)>)
    requires ConvertedEntries(r, src)
    ensures ConvertedEntries([(e.0, ToDict(e.1))] + r, [e] + src)
  {
    var r', src' := [(e.0, ToDict(e.1))] + r, [e] + src;
    forall k | 0 <= k < |r'| ensures r'[k].0 == src'[k].0 && r'[k].1 == ToDict(src'[k].1) {
      if k > 0 { assert r'[k] == r[k - 1] && src'[k] == src[k - 1]; }
    }
  }

  /**
   * A dict, a plain object or a writer keeps exactly its public entries,
   * in their order, each with its value converted.
   */
  lemma {:induction false} PublicEntriesKept(v: Value, i: nat)
    requires (v.VDict? || v.VObject? || v.VWriter?) && i <= |v.Pairs()|
    ensures ConvertedEntries(PublicFrom(v, i), Unprivate(v.Pairs()[i..]))
    decreases |v.Pairs()| - i
  {
    if i < |v.Pairs()| {
      PublicEntriesKept(v, i + 1);
      var ps := v.Pairs();
      assert ps[i..] == [ps[i]] + ps[i + 1..];
      if !IsPrivate(ps[i].0) {
        var rest, urest := PublicFrom(v, i + 1), Unprivate(ps[i + 1..]);
        assert PublicFrom(v, i) == [(ps[i].0, ToDict(ps[i].1))] + rest;
        assert Unprivate(ps[i..]) == [ps[i]] + urest;
        ConvertedCons(ps[i], rest, urest);
      } else {
        assert PublicFrom(v, i) == PublicFrom(v, i + 1);
        assert Unprivate(ps[i..]) == Unprivate(ps[i + 1..]);
      }
    }
  }

  /**
   * A dataclass becomes a dict of its public, non-writer fields: no key
   * of the result is private (a field such as `_test_var` is absent), and
   * every key is the name of a field whose value is not a writer.
   */
  lemma DataclassFields(v: Value)
    requires v.VDataclass?
    ensures ToDict(v).VDict?
    ensures forall k :: 0 <= k < |ToDict(v).entries| ==>
      !IsPrivate(ToDict(v).entries[k].0) &&
      exists j :: 0 <= j < |v.fields| && v.fields[j].0 == ToDict(v).entries[k].0 && !v.fields[j].1.VWriter?
  {
    var es := Unprivate(AsDictFrom(v, 0));
    assert ToDict(v).entries == es;
    forall k | 0 <= k < |es|
      ensures !IsPrivate(es[k].0)
      ensures exists j :: 0 <= j < |v.fields| && v.fields[j].0 == es[k].0 && !v.fields[j].1.VWriter?
    {
      assert es[k] in AsDictFrom(v, 0) && !IsPrivate(es[k].0);
      AsDictFieldOrigin(v, 0, es[k]);
    }
  }

  lemma {:induction false} AsDictFieldOrigin(v: Value, i: nat, e: (string, Value))
    requires v.VDataclass? && e in AsDictFrom(v, i)
    ensures exists j :: i <= j < |v.fields| && v.fields[j].0 == e.0 && !v.fields[j].1.VWriter?
    decreases |v.fields| - i
  {
    if i < |v.fields| && e != (v.fields[i].0, ToDict(v.fields[i].1)) {
      AsDictFieldOrigin(v, i + 1, e);
    } else if i < |v.fields| && v.fields[i].1.VWriter? {
      AsDictFieldOrigin(v, i + 1, e);
    }
  }
}

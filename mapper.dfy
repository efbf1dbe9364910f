/** `getFromObject` and `jsonMapper.map`: resolving one field rule against the source, and
    building the mapped object field by field, recursing into arrays that carry a nested
    spec. */
module Mapper {
  import opened JsonValues
  import opened PathAccess
  import opened AutoVivify

  // ---------------------------------------------------------------- resolving one rule

  /** `f(source)`: a function value runs its callback; calling anything else throws. */
  function Call(f: Json, source: Json, call: Callbacks): (r: Result<Option<Json>>)
    ensures r.Ok? <==> f.JFunc?
    ensures r.Err? ==> r.error == TypeError
  {
    if f.JFunc? then Ok(call(f.id, source)) else Err(TypeError)
  }

  /** `getFromObject(source, rule)`: `custom` wins, then a lone `default`, then the `key`
      lookup with the `default` standing in for an undefined result. */
  function GetFromObject(source: Json, rule: seq<Entry>, call: Callbacks): (r: Result<Option<Json>>)
    ensures r == Err(InvalidFieldRule) <==>
      IsNone(Lookup(rule, "custom")) && IsNone(Lookup(rule, "default")) && IsNone(Lookup(rule, "key"))
    ensures r.Ok? && IsNone(Lookup(rule, "custom")) && !IsNone(Lookup(rule, "default")) ==> r.value.Some?
  {
    var subKey := Lookup(rule, "key");
    var default := Lookup(rule, "default");
    var custom := Lookup(rule, "custom");
    if IsNone(custom) && IsNone(default) && IsNone(subKey) then Err(InvalidFieldRule)
    else if !IsNone(custom) then Call(custom.value, source, call)
    else if IsNone(default) then
      ReadErrors(Some(source), subKey.value);
      GetByKey(Some(source), subKey.value)
    else if IsNone(subKey) then Ok(default)
    else
      ReadErrors(Some(source), subKey.value);
      GetWithDefaults(Some(source), subKey.value, default.value)
  }

  /** The value of one field: a rule object goes to `getFromObject`, anything else is a path
      handed to `get`, which only a non-empty string passes. */
  function ResolveRule(source: Json, rule: Json, call: Callbacks): (r: Result<Option<Json>>)
    ensures rule.JStr? ==> r == Get(Some(source), rule.s)
    ensures !rule.JObj? && !rule.JStr? ==> r.Err?
  {
    if IsObject(Some(rule)) then GetFromObject(source, rule.entries, call)
    else GetByKey(Some(source), rule)
  }

  lemma LookupSmaller(es: seq<Entry>, k: string)
    ensures Lookup(es, k).Some? ==> Lookup(es, k).value < JObj(es)
  {
    match Find(es, k)
    case None =>
    case Some(j) => assert es[j] in es;
  }

  /** `get(rule, 'map')` for a rule that resolved: the nested spec of a rule object, and
      undefined for a path string. */
  function Nested(rule: Json): (r: Option<Json>)
    ensures r.Some? ==> r.value < rule
  {
    if rule.JObj? then
      LookupSmaller(rule.entries, "map");
      Lookup(rule.entries, "map")
    else None
  }

  // ---------------------------------------------------------------- the mapper

  /** `jsonMapper.map(source, spec)`. */
  function MapObject(source: Json, spec: Json, call: Callbacks): (r: Result<Json>)
    ensures !IsObject(Some(source)) || !IsObject(Some(spec)) ==> r == Err(InvalidArgument)
    ensures r.Ok? ==> r.value.JObj?
    decreases spec, 3
  {
    if !IsObject(Some(source)) || !IsObject(Some(spec)) then Err(InvalidArgument)
    else MapFields(source, spec, 0, [], call)
  }

  /** The `forEach` over the keys of the spec from the `i`-th on, `mapped` holding the
      properties written so far: an undefined value is skipped, anything else (after the
      array mapping) is written by `setPath` under the key. */
  function MapFields(source: Json, spec: Json, i: nat, mapped: seq<Entry>, call: Callbacks): (r: Result<Json>)
    requires spec.JObj? && i <= |spec.entries|
    ensures r.Ok? ==> r.value.JObj?
    decreases spec, 2, |spec.entries| - i
  {
    if i == |spec.entries| then Ok(JObj(mapped))
    else
      var field := spec.entries[i];
      var v :- ResolveRule(source, field.val, call);
      if v.None? then MapFields(source, spec, i + 1, mapped, call)
      else
        var w :- MapValue(v.value, field.val, call);
        var out := SetPathSpec(JObj(mapped), field.name, w);
        if out.failure.Some? then Err(out.failure.value)
        else MapFields(source, spec, i + 1, out.tree.entries, call)
  }

  /** An array value becomes the array of its elements mapped by the rule's nested spec, or
      stays as it is when the rule has none; any other value stays as it is. */
  function MapValue(v: Json, rule: Json, call: Callbacks): (r: Result<Json>)
    ensures !v.JArr? || IsNone(Nested(rule)) ==> r == Ok(v)
    ensures r.Ok? ==> (r.value.JArr? <==> v.JArr?)
    ensures r.Ok? && v.JArr? ==> |r.value.items| == |v.items|
    decreases rule, 0
  {
    match v
    case JArr(items) =>
      var sub := Nested(rule);
      if IsNone(sub) then Ok(v)
      else
        var mapped :- MapItems(items, sub.value, call);
        Ok(JArr(mapped))
    case _ => Ok(v)
  }

  /** `items.map(item => mapper(item, sub))`: the first element that fails aborts. */
  function MapItems(items: seq<Json>, sub: Json, call: Callbacks): (r: Result<seq<Json>>)
    ensures r.Ok? ==> |r.value| == |items|
    decreases sub, 4, |items|
  {
    if items == [] then Ok([])
    else
      var first :- MapObject(items[0], sub, call);
      var rest :- MapItems(items[1..], sub, call);
      Ok([first] + rest)
  }

  /** The elements mapped so far followed by the rest, unless the rest failed. */
  function Prefixed(done: seq<Json>, rest: Result<seq<Json>>): Result<seq<Json>> {
    var more :- rest;
    Ok(done + more)
  }

  lemma PrefixedNothing(r: Result<seq<Json>>)
    ensures Prefixed([], r) == r
  {
    match r
    case Err(_) =>
    case Ok(rs) => assert [] + rs == rs;
  }

  /** One more element of `items.map(...)`. */
  lemma MapItemsStep(items: seq<Json>, k: nat, sub: Json, call: Callbacks, done: seq<Json>, first: Json)
    requires k < |items| && MapObject(items[k], sub, call) == Ok(first)
    ensures Prefixed(done, MapItems(items[k..], sub, call))
            == Prefixed(done + [first], MapItems(items[k + 1..], sub, call))
  {
    assert items[k..][0] == items[k] && items[k..][1..] == items[k + 1..];
    match MapItems(items[k + 1..], sub, call)
    case Err(_) =>
    case Ok(rest) => assert done + ([first] + rest) == done + [first] + rest;
  }

  /** `items.map(item => mapper(item, sub))`, element by element. */
  method MapArray(items: seq<Json>, sub: Json, call: Callbacks) returns (r: Result<seq<Json>>)
    ensures r == MapItems(items, sub, call)
    decreases sub, 1
  {
    var done := [];
    var k := 0;
    assert items[k..] == items;
    PrefixedNothing(MapItems(items, sub, call));
    while k < |items|
      invariant k <= |items|
      invariant MapItems(items, sub, call) == Prefixed(done, MapItems(items[k..], sub, call))
    {
      var m := Map(items[k], sub, call);
      if m.Err? {
        assert items[k..][0] == items[k];
        return Err(m.error);
      }
      MapItemsStep(items, k, sub, call, done, m.value);
      done := done + [m.value];
      k := k + 1;
    }
    assert items[k..] == [] && done + [] == done;
    return Ok(done);
  }

  /** `jsonMapper.map(source, spec)`, step by step: the loop over `keys(spec)` writes each
      defined value into `mapped` by `setPath`; an array value is mapped element by element,
      by recursion, when the rule carries a nested spec. */
  method Map(source: Json, spec: Json, call: Callbacks) returns (r: Result<Json>)
    ensures r == MapObject(source, spec, call)
    decreases spec, 0
  {
    if !IsObject(Some(source)) || !IsObject(Some(spec)) {
      return Err(InvalidArgument);
    }
    var names := Keys(spec.entries);
    var mapped := JObj([]);
    var i := 0;
    while i < |names|
      invariant i <= |names| == |spec.entries| && names == Names(spec.entries)
      invariant mapped.JObj?
      invariant MapFields(source, spec, i, mapped.entries, call) == MapObject(source, spec, call)
    {
      var rule := spec.entries[i].val;
      var v := ResolveRule(source, rule, call);
      if v.Err? {
        return Err(v.error);
      }
      if v.value.Some? {
        var w := v.value.value;
        var sub := Nested(rule);
        if w.JArr? && !IsNone(sub) {
          assert sub.value < spec by {
            assert spec.entries[i] in spec.entries;
          }
          var items := MapArray(w.items, sub.value, call);
          if items.Err? {
            return Err(items.error);
          }
          w := JArr(items.value);
        }
        var tree, failure := SetPath(mapped, names[i], w);
        if failure.Some? {
          return Err(failure.value);
        }
        mapped := tree;
      }
      i := i + 1;
    }
    return Ok(mapped);
  }

  // ---------------------------------------------------------------- facts about rules

  /** With a `custom` function the rule's `key` and `default` are ignored, and the value is
      whatever the function returns for the whole source; a `custom` that is not a function
      throws. */
  lemma CustomTakesPrecedence(source: Json, rule: seq<Entry>, call: Callbacks, key: Json, default: Json)
    requires !IsNone(Lookup(rule, "custom"))
    ensures var r := GetFromObject(source, rule, call);
      && (r.Ok? <==> Lookup(rule, "custom").value.JFunc?)
      && (r.Ok? ==> r.value == call(Lookup(rule, "custom").value.id, source))
      && GetFromObject(source, Put(Put(rule, "key", key), "default", default), call) == r
  {
  }

  /** A `default` without `key` (and without `custom`) is the value, whatever the source. */
  lemma DefaultWithoutKey(source: Json, other: Json, rule: seq<Entry>, call: Callbacks)
    requires IsNone(Lookup(rule, "custom")) && IsNone(Lookup(rule, "key")) && !IsNone(Lookup(rule, "default"))
    ensures GetFromObject(source, rule, call) == Ok(Lookup(rule, "default"))
    ensures GetFromObject(source, rule, call) == GetFromObject(other, rule, call)
  {
  }

  /** A `key` without `default` (and without `custom`) is a plain lookup, undefined
      included. */
  lemma KeyWithoutDefault(source: Json, rule: seq<Entry>, call: Callbacks)
    requires IsNone(Lookup(rule, "custom")) && IsNone(Lookup(rule, "default")) && !IsNone(Lookup(rule, "key"))
    ensures GetFromObject(source, rule, call) == ResolveRule(source, Lookup(rule, "key").value, call)
            || Lookup(rule, "key").value.JObj?
    ensures Lookup(rule, "key").value.JStr? ==>
      GetFromObject(source, rule, call) == Get(Some(source), Lookup(rule, "key").value.s)
  {
  }

  /** Adding a `default` to a rule with a `key` changes the result only where the lookup is
      undefined; a null found by the lookup stays null. */
  lemma DefaultIsFallback(source: Json, rule: seq<Entry>, call: Callbacks, default: Json)
    requires IsNone(Lookup(rule, "custom")) && !IsNone(Lookup(rule, "key")) && default != JNull
    ensures GetFromObject(source, Put(rule, "default", default), call) ==
      (var found :- GetFromObject(source, Put(rule, "default", JNull), call);
       Ok(if found.None? then Some(default) else found))
  {
    var withDefault, withNull := Put(rule, "default", default), Put(rule, "default", JNull);
    assert Lookup(withDefault, "key") == Lookup(rule, "key") && Lookup(withDefault, "custom") == Lookup(rule, "custom");
    assert Lookup(withNull, "key") == Lookup(rule, "key") && Lookup(withNull, "custom") == Lookup(rule, "custom");
    KeyedRule(source, withDefault, call);
    KeyedRule(source, withNull, call);
  }

  /** A rule with a `key` and no `custom` reads the key, through `getWithDefaults` when it
      also has a `default`. */
  lemma KeyedRule(source: Json, rule: seq<Entry>, call: Callbacks)
    requires IsNone(Lookup(rule, "custom")) && !IsNone(Lookup(rule, "key"))
    ensures GetFromObject(source, rule, call) ==
      if IsNone(Lookup(rule, "default")) then GetByKey(Some(source), Lookup(rule, "key").value)
      else GetWithDefaults(Some(source), Lookup(rule, "key").value, Lookup(rule, "default").value)
  {
  }

  // ---------------------------------------------------------------- facts about arrays

  /** An array mapped with a nested spec: the result has one element per element, each the
      element mapped by the nested spec; it fails exactly when an element fails, with the
      error of the first one. */
  lemma {:induction false} MapItemsElementwise(items: seq<Json>, sub: Json, call: Callbacks)
    ensures var r := MapItems(items, sub, call);
      && (r.Ok? <==> AllMapped(items, sub, call))
      && (r.Ok? ==> MappedTo(items, sub, call, r.value))
      && (r.Err? ==> FailsFirstWith(items, sub, call, r.error))
    decreases |items|
  {
    if items != [] {
      MapItemsElementwise(items[1..], sub, call);
      match MapObject(items[0], sub, call)
      case Err(e) =>
        HeadFails(items, sub, call);
      case Ok(first) =>
        match MapItems(items[1..], sub, call)
        case Err(e) =>
          TailFails(items, sub, call, e);
        case Ok(rest) =>
          ElementsCons(items, sub, call, first, rest);
    }
  }

  /** Every element maps without error. */
  predicate AllMapped(items: seq<Json>, sub: Json, call: Callbacks) {
    forall k :: 0 <= k < |items| ==> MapObject(items[k], sub, call).Ok?
  }

  /** `out` holds, position by position, the elements mapped. */
  predicate MappedTo(items: seq<Json>, sub: Json, call: Callbacks, out: seq<Json>) {
    |out| == |items| && forall k :: 0 <= k < |items| ==> MapObject(items[k], sub, call) == Ok(out[k])
  }

  /** Some element fails with `e` and every element before it maps without error. */
  predicate FailsFirstWith(items: seq<Json>, sub: Json, call: Callbacks, e: Error) {
    exists k :: 0 <= k < |items| && MapObject(items[k], sub, call) == Err(e) && AllMapped(items[..k], sub, call)
  }

  lemma HeadFails(items: seq<Json>, sub: Json, call: Callbacks)
    requires items != [] && MapObject(items[0], sub, call).Err?
    ensures !AllMapped(items, sub, call) && FailsFirstWith(items, sub, call, MapObject(items[0], sub, call).error)
  {
    assert AllMapped(items[..0], sub, call);
  }

  lemma TailFails(items: seq<Json>, sub: Json, call: Callbacks, e: Error)
    requires items != [] && MapObject(items[0], sub, call).Ok?
    requires FailsFirstWith(items[1..], sub, call, e)
    ensures !AllMapped(items, sub, call) && FailsFirstWith(items, sub, call, e)
  {
    var k :| 0 <= k < |items[1..]| && MapObject(items[1..][k], sub, call) == Err(e) && AllMapped(items[1..][..k], sub, call);
    assert items[1..][k] == items[k + 1];
    var before, tailBefore := items[..k + 1], items[1..][..k];
    forall m | 0 <= m < |before| ensures MapObject(before[m], sub, call).Ok? {
      if m > 0 { assert before[m] == tailBefore[m - 1]; }
    }
    assert AllMapped(before, sub, call);
  }

  lemma ElementsCons(items: seq<Json>, sub: Json, call: Callbacks, first: Json, rest: seq<Json>)
    requires items != [] && MapObject(items[0], sub, call) == Ok(first)
    requires AllMapped(items[1..], sub, call) && MappedTo(items[1..], sub, call, rest)
    ensures AllMapped(items, sub, call) && MappedTo(items, sub, call, [first] + rest)
  {
    var out, tail := [first] + rest, items[1..];
    forall k | 0 < k < |items| ensures MapObject(items[k], sub, call) == Ok(out[k]) {
      assert items[k] == tail[k - 1] && out[k] == rest[k - 1];
    }
  }

  /** The value a field writes for an array: one element per element, each passed through
      when the rule has no nested spec and mapped by it (the source and spec checks applied
      again to each element) when it has one. */
  lemma ArrayValue(items: seq<Json>, rule: Json, call: Callbacks)
    ensures var r := MapValue(JArr(items), rule, call);
      && (IsNone(Nested(rule)) ==> r == Ok(JArr(items)))
      && (!IsNone(Nested(rule)) ==>
            && (r.Ok? <==> forall k :: 0 <= k < |items| ==> MapObject(items[k], Nested(rule).value, call).Ok?)
            && (r.Ok? ==>
                  && |r.value.items| == |items|
                  && forall k :: 0 <= k < |items| ==> MapObject(items[k], Nested(rule).value, call) == Ok(r.value.items[k])))
  {
    if !IsNone(Nested(rule)) {
      MapItemsElementwise(items, Nested(rule).value, call);
    }
  }

  // ---------------------------------------------------------------- specs of bare paths

  /** A spec whose rules are all path strings and whose output keys are distinct plain
      names (no dot, not empty). */
  predicate PathRules(spec: seq<Entry>) {
    UniqueNames(spec) &&
    forall k :: 0 <= k < |spec| ==> spec[k].val.JStr? && spec[k].name != "" && '.' !in spec[k].name
  }

  /** What such a spec means: in spec order, each output key with the value its path reads
      in the source, keys whose path reads undefined left out (null, 0, false and "" kept);
      the first failing path fails the whole. */
  function Selected(source: Json, spec: seq<Entry>): Result<seq<Entry>>
    decreases |spec|
  {
    if spec == [] then Ok([])
    else
      var v :- GetByKey(Some(source), spec[0].val);
      var rest :- Selected(source, spec[1..]);
      Ok((if v.None? then [] else [Entry(spec[0].name, v.value)]) + rest)
  }

  /** `setPath` with a plain name writes that one property. */
  lemma SetPathPlainName(m: seq<Entry>, name: string, v: Json)
    requires name != "" && '.' !in name
    ensures SetPathSpec(JObj(m), name, v) == Outcome(JObj(Put(m, name, v)), None)
  {
    assert Split(name) == [name];
    SetOwnProperty(Some(JObj(m)), name, v, false);
    assert Set(Some(JObj(m)), name, v, false) == Ok(Written(Some(JObj(Put(m, name, v))), Some(v)));
  }

  /** Writing a name that is not there yet appends it. */
  lemma PutNew(es: seq<Entry>, k: string, v: Json)
    requires Find(es, k).None?
    ensures Put(es, k, v) == es + [Entry(k, v)]
  {
  }

  /** A field whose rule reads undefined is skipped. */
  lemma FieldSkipped(source: Json, spec: Json, i: nat, mapped: seq<Entry>, call: Callbacks)
    requires spec.JObj? && i < |spec.entries|
    requires ResolveRule(source, spec.entries[i].val, call) == Ok(None)
    ensures MapFields(source, spec, i, mapped, call) == MapFields(source, spec, i + 1, mapped, call)
  {
  }

  /** A field whose rule reads `x`, whose value becomes `w` and whose `setPath` succeeds
      moves the loop on with the object that write left. */
  lemma FieldWritten(source: Json, spec: Json, i: nat, mapped: seq<Entry>, call: Callbacks,
                     x: Json, w: Json, mapped': seq<Entry>)
    requires spec.JObj? && i < |spec.entries|
    requires ResolveRule(source, spec.entries[i].val, call) == Ok(Some(x))
    requires MapValue(x, spec.entries[i].val, call) == Ok(w)
    requires SetPathSpec(JObj(mapped), spec.entries[i].name, w) == Outcome(JObj(mapped'), None)
    ensures MapFields(source, spec, i, mapped, call) == MapFields(source, spec, i + 1, mapped', call)
  {
  }

  /** A field whose rule fails, whose array mapping fails, or whose `setPath` fails aborts
      the whole mapping with that error: no partial result is returned. */
  lemma FieldFails(source: Json, spec: Json, i: nat, mapped: seq<Entry>, call: Callbacks)
    requires spec.JObj? && i < |spec.entries|
    ensures var field := spec.entries[i];
      var v := ResolveRule(source, field.val, call);
      && (v.Err? ==> MapFields(source, spec, i, mapped, call) == Err(v.error))
      && (v.Ok? && v.value.Some? && MapValue(v.value.value, field.val, call).Err? ==>
            MapFields(source, spec, i, mapped, call) == Err(MapValue(v.value.value, field.val, call).error))
      && (v.Ok? && v.value.Some? && MapValue(v.value.value, field.val, call).Ok? &&
          SetPathSpec(JObj(mapped), field.name, MapValue(v.value.value, field.val, call).value).failure.Some? ==>
            MapFields(source, spec, i, mapped, call) ==
              Err(SetPathSpec(JObj(mapped), field.name, MapValue(v.value.value, field.val, call).value).failure.value))
  {
  }

  /** A field with a plain output name that is not written yet, whatever its rule (a path
      or a rule object), appends the value it resolves to, after the array mapping. */
  lemma FieldAppended(source: Json, spec: Json, i: nat, mapped: seq<Entry>, call: Callbacks, x: Json, w: Json)
    requires spec.JObj? && i < |spec.entries|
    requires spec.entries[i].name != "" && '.' !in spec.entries[i].name
    requires Find(mapped, spec.entries[i].name).None?
    requires ResolveRule(source, spec.entries[i].val, call) == Ok(Some(x))
    requires MapValue(x, spec.entries[i].val, call) == Ok(w)
    ensures MapFields(source, spec, i, mapped, call)
            == MapFields(source, spec, i + 1, mapped + [Entry(spec.entries[i].name, w)], call)
  {
    var name := spec.entries[i].name;
    SetPathPlainName(mapped, name, w);
    PutNew(mapped, name, w);
    FieldWritten(source, spec, i, mapped, call, x, w, mapped + [Entry(name, w)]);
  }

  lemma SelectedStep(source: Json, es: seq<Entry>, i: nat)
    requires i < |es|
    ensures Selected(source, es[i..]) ==
      (var v :- GetByKey(Some(source), es[i].val);
       var rest :- Selected(source, es[i + 1..]);
       Ok((if v.None? then [] else [Entry(es[i].name, v.value)]) + rest))
  {
    assert es[i..][0] == es[i] && es[i..][1..] == es[i + 1..];
  }

  /** After the `i`-th field is appended, the later output names are still unwritten. */
  lemma StillFresh(mapped: seq<Entry>, es: seq<Entry>, i: nat, e: Entry)
    requires UniqueNames(es) && i < |es| && e.name == es[i].name
    requires forall k :: i <= k < |es| ==> Find(mapped, es[k].name).None?
    ensures forall k :: i + 1 <= k < |es| ==> Find(mapped + [e], es[k].name).None?
  {
    forall k | i + 1 <= k < |es| ensures Find(mapped + [e], es[k].name).None? {
      FindAppend(mapped, e, es[k].name);
    }
  }

  /** `mapped` followed by the selected fields, unless the selection failed. */
  function Appended(mapped: seq<Entry>, sel: Result<seq<Entry>>): Result<Json> {
    var fields :- sel;
    Ok(JObj(mapped + fields))
  }

  lemma AppendedCons(mapped: seq<Entry>, e: Entry, tail: Result<seq<Entry>>)
    ensures Appended(mapped, (var rest :- tail; Ok([e] + rest))) == Appended(mapped + [e], tail)
  {
    match tail
    case Err(_) =>
    case Ok(rest) => assert mapped + ([e] + rest) == mapped + [e] + rest;
  }

  /** `PathFields` for a field whose path reads a value. */
  lemma PathFieldKept(source: Json, spec: Json, i: nat, mapped: seq<Entry>, call: Callbacks, x: Json)
    requires spec.JObj? && PathRules(spec.entries) && i < |spec.entries|
    requires Find(mapped, spec.entries[i].name).None?
    requires GetByKey(Some(source), spec.entries[i].val) == Ok(Some(x))
    requires var e := Entry(spec.entries[i].name, x);
      MapFields(source, spec, i + 1, mapped + [e], call)
      == Appended(mapped + [e], Selected(source, spec.entries[i + 1..]))
    ensures MapFields(source, spec, i, mapped, call) == Appended(mapped, Selected(source, spec.entries[i..]))
  {
    var es := spec.entries;
    var e := Entry(es[i].name, x);
    var tail := Selected(source, es[i + 1..]);
    assert Selected(source, es[i..]) == (var rest :- tail; Ok([e] + rest)) by {
      SelectedStep(source, es, i);
    }
    assert MapFields(source, spec, i, mapped, call) == Appended(mapped + [e], tail) by {
      assert MapValue(x, spec.entries[i].val, call) == Ok(x);
      FieldAppended(source, spec, i, mapped, call, x, x);
    }
    AppendedCons(mapped, e, tail);
  }

  /** `PathFields` for a field whose path reads undefined. */
  lemma PathFieldDropped(source: Json, spec: Json, i: nat, mapped: seq<Entry>, call: Callbacks)
    requires spec.JObj? && PathRules(spec.entries) && i < |spec.entries|
    requires GetByKey(Some(source), spec.entries[i].val) == Ok(None)
    requires MapFields(source, spec, i + 1, mapped, call) == Appended(mapped, Selected(source, spec.entries[i + 1..]))
    ensures MapFields(source, spec, i, mapped, call) == Appended(mapped, Selected(source, spec.entries[i..]))
  {
    FieldSkipped(source, spec, i, mapped, call);
    SelectedStep(source, spec.entries, i);
    match Selected(source, spec.entries[i + 1..])
    case Err(_) =>
    case Ok(rest) => assert [] + rest == rest;
  }

  /** The loop of the mapper over a spec of bare paths, from the `i`-th field on, appends
      the selected fields to those written so far. */
  lemma {:induction false} PathFields(source: Json, spec: Json, i: nat, mapped: seq<Entry>, call: Callbacks)
    requires spec.JObj? && PathRules(spec.entries) && i <= |spec.entries|
    requires forall k :: i <= k < |spec.entries| ==> Find(mapped, spec.entries[k].name).None?
    ensures MapFields(source, spec, i, mapped, call) == Appended(mapped, Selected(source, spec.entries[i..]))
    decreases |spec.entries| - i
  {
    var es := spec.entries;
    if i == |es| {
      assert es[i..] == [] && mapped + [] == mapped;
    } else {
      match GetByKey(Some(source), es[i].val)
      case Err(_) =>
        SelectedStep(source, es, i);
      case Ok(v) =>
        if v.None? {
          PathFields(source, spec, i + 1, mapped, call);
          PathFieldDropped(source, spec, i, mapped, call);
        } else {
          var e := Entry(es[i].name, v.value);
          StillFresh(mapped, es, i, e);
          PathFields(source, spec, i + 1, mapped + [e], call);
          PathFieldKept(source, spec, i, mapped, call, v.value);
        }
    }
  }

  /** A spec of bare paths under distinct plain names maps to `Selected`: its fields in
      spec order, those reading undefined dropped. */
  lemma PathSpecSelects(source: Json, spec: seq<Entry>, call: Callbacks)
    requires source.JObj? && PathRules(spec)
    ensures MapObject(source, JObj(spec), call) == (var sel :- Selected(source, spec); Ok(JObj(sel)))
  {
    PathFields(source, JObj(spec), 0, [], call);
    assert MapObject(source, JObj(spec), call) == MapFields(source, JObj(spec), 0, [], call);
    assert spec[0..] == spec;
    match Selected(source, spec)
    case Err(_) =>
    case Ok(sel) => assert [] + sel == sel;
  }

  /** The spec `{name: 'name', ...}` for each property of an object. */
  function IdentitySpec(es: seq<Entry>): (spec: seq<Entry>)
    ensures |spec| == |es|
    ensures forall k :: 0 <= k < |es| ==> spec[k] == Entry(es[k].name, JStr(es[k].name))
  {
    if es == [] then [] else [Entry(es[0].name, JStr(es[0].name))] + IdentitySpec(es[1..])
  }

  lemma FindUnique(es: seq<Entry>, k: nat)
    requires UniqueNames(es) && k < |es|
    ensures Find(es, es[k].name) == Some(k)
  {
  }

  /** Reading a property by its own name. */
  lemma ReadOwnName(es: seq<Entry>, i: nat)
    requires UniqueNames(es) && i < |es| && es[i].name != "" && '.' !in es[i].name
    ensures GetByKey(Some(JObj(es)), JStr(es[i].name)) == Ok(Some(es[i].val))
  {
    FindUnique(es, i);
    assert Get(Some(JObj(es)), es[i].name) == Prop(JObj(es), es[i].name);
  }

  /** Every property name is a plain, non-empty name without a dot. */
  predicate PlainNames(es: seq<Entry>) {
    forall k :: 0 <= k < |es| ==> es[k].name != "" && '.' !in es[k].name
  }

  lemma {:induction false} SelectedIdentity(es: seq<Entry>, i: nat)
    requires UniqueNames(es) && PlainNames(es) && i <= |es|
    ensures Selected(JObj(es), IdentitySpec(es)[i..]) == Ok(es[i..])
    decreases |es| - i
  {
    if i < |es| {
      SelectedIdentity(es, i + 1);
      SelectedIdentityStep(es, i);
    } else {
      SelectedNothing(JObj(es), IdentitySpec(es), es, i);
    }
  }

  lemma SelectedNothing(source: Json, spec: seq<Entry>, es: seq<Entry>, i: nat)
    requires i == |spec| == |es|
    ensures Selected(source, spec[i..]) == Ok(es[i..])
  {
    assert spec[i..] == [] && es[i..] == [];
  }

  /** One step of `SelectedIdentity`: the `i`-th field reads back the `i`-th property. */
  lemma SelectedIdentityStep(es: seq<Entry>, i: nat)
    requires UniqueNames(es) && PlainNames(es) && i < |es|
    requires Selected(JObj(es), IdentitySpec(es)[i + 1..]) == Ok(es[i + 1..])
    ensures Selected(JObj(es), IdentitySpec(es)[i..]) == Ok(es[i..])
  {
    var spec := IdentitySpec(es);
    ReadOwnName(es, i);
    SelectedStep(JObj(es), spec, i);
    assert spec[i] == Entry(es[i].name, JStr(es[i].name));
    ConsSlice(es, i);
  }

  lemma ConsSlice<T>(s: seq<T>, i: nat)
    requires i < |s|
    ensures s[i..] == [s[i]] + s[i + 1..]
  {
  }

  /** Mapping an object (distinct plain property names) with the spec that names each of
      its properties by its own path gives the object back. */
  lemma IdentityMapping(es: seq<Entry>, call: Callbacks)
    requires UniqueNames(es) && PlainNames(es)
    ensures MapObject(JObj(es), JObj(IdentitySpec(es)), call) == Ok(JObj(es))
  {
    var spec := IdentitySpec(es);
    assert PathRules(spec);
    PathSpecSelects(JObj(es), spec, call);
    SelectedIdentity(es, 0);
    assert es[0..] == es && spec[0..] == spec;
  }
}

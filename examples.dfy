/** The behaviour the library's own test suite checks (test/spec/test.js), stated on the
    model: each lemma is one test case, its inputs fixed by the requires clauses. */
module MapperExamples {
  import opened JsonValues
  import opened PathAccess
  import opened AutoVivify
  import opened Mapper

  // ---------------------------------------------------------------- helpers

  /** A path of two plain segments splits into them. */
  lemma SplitTwo(a: string, b: string)
    requires '.' !in a && '.' !in b
    ensures Split(a + "." + b) == [a, b]
  {
    SplitConcat(a, b);
  }

  // ---------------------------------------------------------------- Basic

  /** Arrays, null, strings and functions are refused as the source and as the spec. */
  lemma RejectsNonObjects(call: Callbacks)
    ensures MapObject(JArr([]), JObj([]), call) == Err(InvalidArgument)
    ensures MapObject(JNull, JObj([]), call) == Err(InvalidArgument)
    ensures MapObject(JStr(""), JObj([]), call) == Err(InvalidArgument)
    ensures MapObject(JFunc(0), JObj([]), call) == Err(InvalidArgument)
    ensures MapObject(JObj([]), JArr([]), call) == Err(InvalidArgument)
    ensures MapObject(JObj([]), JNull, call) == Err(InvalidArgument)
    ensures MapObject(JObj([]), JStr(""), call) == Err(InvalidArgument)
    ensures MapObject(JObj([]), JFunc(0), call) == Err(InvalidArgument)
  {
  }

  /** An empty spec maps any object to `{}`. */
  lemma EmptySpec(es: seq<Entry>, call: Callbacks)
    ensures MapObject(JObj(es), JObj([]), call) == Ok(JObj([]))
  {
  }

  /** `{a: 'b', b: 'c', c: 'a'}` on `{a: 1, b: 2, c: 3}` gives `{a: 2, b: 3, c: 1}`. */
  lemma PermutesKeys(source: Json, spec: seq<Entry>, call: Callbacks)
    requires source == JObj([Entry("a", JNum(1)), Entry("b", JNum(2)), Entry("c", JNum(3))])
    requires spec == [Entry("a", JStr("b")), Entry("b", JStr("c")), Entry("c", JStr("a"))]
    ensures MapObject(source, JObj(spec), call)
            == Ok(JObj([Entry("a", JNum(2)), Entry("b", JNum(3)), Entry("c", JNum(1))]))
  {
    assert PathRules(spec);
    PathSpecSelects(source, spec, call);
    var last := [Entry("c", JNum(1))];
    assert Selected(source, spec[2..]) == Ok(last) by {
      SelectedStep(source, spec, 2);
      assert spec[2] == Entry("c", JStr("a")) && spec[3..] == [];
      assert GetByKey(Some(source), JStr("a")) == Ok(Some(JNum(1)));
      assert last + [] == last;
    }
    assert Selected(source, spec[1..]) == Ok([Entry("b", JNum(3))] + last) by {
      SelectedStep(source, spec, 1);
      assert spec[1] == Entry("b", JStr("c"));
      assert GetByKey(Some(source), JStr("c")) == Ok(Some(JNum(3)));
    }
    assert Selected(source, spec) == Ok([Entry("a", JNum(2))] + ([Entry("b", JNum(3))] + last)) by {
      SelectedStep(source, spec, 0);
      assert spec[0] == Entry("a", JStr("b")) && spec[0..] == spec;
      assert GetByKey(Some(source), JStr("b")) == Ok(Some(JNum(2)));
    }
    assert [Entry("a", JNum(2))] + ([Entry("b", JNum(3))] + last)
           == [Entry("a", JNum(2)), Entry("b", JNum(3)), Entry("c", JNum(1))];
  }

  /** `{a: 'a', d: 'd'}` on `{a: 1}` gives `{a: 1}`: the missing key is left out. */
  lemma SkipsMissingKeys(source: Json, spec: seq<Entry>, call: Callbacks)
    requires source == JObj([Entry("a", JNum(1))])
    requires spec == [Entry("a", JStr("a")), Entry("d", JStr("d"))]
    ensures MapObject(source, JObj(spec), call) == Ok(JObj([Entry("a", JNum(1))]))
  {
    assert PathRules(spec);
    PathSpecSelects(source, spec, call);
    var none: seq<Entry> := [];
    assert GetByKey(Some(source), JStr("d")) == Ok(None);
    SelectedStep(source, spec, 1);
    assert spec[1].val == JStr("d") && spec[2..] == none;
    assert Selected(source, spec[2..]) == Ok(none);
    assert Selected(source, spec[1..]) == Ok(none + none);
    assert GetByKey(Some(source), JStr("a")) == Ok(Some(JNum(1)));
    SelectedStep(source, spec, 0);
    assert spec[0..] == spec && spec[0] == Entry("a", JStr("a"));
    assert Selected(source, spec) == Ok([Entry("a", JNum(1))] + (none + none));
    assert [Entry("a", JNum(1))] + (none + none) == [Entry("a", JNum(1))];
  }

  /** `{a: 'a', d: {key: 'd'}}` on `{a: 1}` gives `{a: 1}`: a rule object whose key is
      missing is left out too. */
  lemma SkipsMissingKeyRule(source: Json, spec: seq<Entry>, call: Callbacks)
    requires source == JObj([Entry("a", JNum(1))])
    requires spec == [Entry("a", JStr("a")), Entry("d", JObj([Entry("key", JStr("d"))]))]
    ensures MapObject(source, JObj(spec), call) == Ok(JObj([Entry("a", JNum(1))]))
  {
    FieldA(source, call);
    KeyedRule(source, [Entry("key", JStr("d"))], call);
    assert GetByKey(Some(source), JStr("d")) == Ok(None);
    FieldThenSkipped(source, spec, call, JNum(1));
  }

  /** `{a: 'a', d: 'b.d'}` on `{a: 1, b: {d: 2}}` gives `{a: 1, d: 2}`. */
  lemma ReadsNestedKey(source: Json, spec: seq<Entry>, call: Callbacks)
    requires source == JObj([Entry("a", JNum(1)), Entry("b", JObj([Entry("d", JNum(2))]))])
    requires spec == [Entry("a", JStr("a")), Entry("d", JStr("b.d"))]
    ensures MapObject(source, JObj(spec), call) == Ok(JObj([Entry("a", JNum(1)), Entry("d", JNum(2))]))
  {
    assert "b.d" == "b" + "." + "d";
    GetDotted(source, "b", "d");
    assert Get(Some(source), "b") == Ok(Some(JObj([Entry("d", JNum(2))])));
    FieldA(source, call);
    assert ResolveRule(source, spec[1].val, call) == Ok(Some(JNum(2)));
    TwoFields(source, spec, call, JNum(1), JNum(1), JNum(2), JNum(2));
  }

  /** `{a: 'a', d: 'b.d'}` on `{a: 1, b: 2}` gives `{a: 1}`: `'b.d'` on a number reads
      undefined, so the field is skipped. */
  lemma SkipsMissingNestedKey(source: Json, spec: seq<Entry>, call: Callbacks)
    requires source == JObj([Entry("a", JNum(1)), Entry("b", JNum(2))])
    requires spec == [Entry("a", JStr("a")), Entry("d", JStr("b.d"))]
    ensures MapObject(source, JObj(spec), call) == Ok(JObj([Entry("a", JNum(1))]))
  {
    assert "b.d" == "b" + "." + "d";
    GetDotted(source, "b", "d");
    assert Get(Some(source), "b") == Ok(Some(JNum(2)));
    FieldA(source, call);
    assert ResolveRule(source, spec[1].val, call) == Ok(None);
    FieldThenSkipped(source, spec, call, JNum(1));
  }

  /** `'b.c'` on `{b: null}` reads null, which is written: `{d: 'b.c'}` gives `{d: null}`. */
  lemma NullIntermediate(source: Json, spec: seq<Entry>, call: Callbacks)
    requires source == JObj([Entry("b", JNull)]) && spec == [Entry("d", JStr("b.c"))]
    ensures MapObject(source, JObj(spec), call) == Ok(JObj([Entry("d", JNull)]))
  {
    assert PathRules(spec);
    PathSpecSelects(source, spec, call);
    assert "b.c" == "b" + "." + "c";
    GetDotted(source, "b", "c");
    assert GetByKey(Some(source), JStr("b.c")) == Ok(Some(JNull));
    SelectedStep(source, spec, 0);
    assert spec[0..] == spec && spec[0].val == JStr("b.c") && spec[1..] == [];
    assert Selected(source, spec[1..]) == Ok([]);
    assert Selected(source, spec) == Ok([Entry("d", JNull)] + []);
    assert [Entry("d", JNull)] + [] == [Entry("d", JNull)];
  }

  // ---------------------------------------------------------------- two-field specs

  /** A spec of two fields under distinct plain output names, each resolving to a value:
      the result holds the two values, in spec order. */
  lemma TwoFields(source: Json, spec: seq<Entry>, call: Callbacks, x0: Json, w0: Json, x1: Json, w1: Json)
    requires source.JObj? && |spec| == 2 && PlainNames(spec) && spec[0].name != spec[1].name
    requires ResolveRule(source, spec[0].val, call) == Ok(Some(x0)) && MapValue(x0, spec[0].val, call) == Ok(w0)
    requires ResolveRule(source, spec[1].val, call) == Ok(Some(x1)) && MapValue(x1, spec[1].val, call) == Ok(w1)
    ensures MapObject(source, JObj(spec), call) == Ok(JObj([Entry(spec[0].name, w0), Entry(spec[1].name, w1)]))
  {
    var e0, e1 := Entry(spec[0].name, w0), Entry(spec[1].name, w1);
    assert MapObject(source, JObj(spec), call) == MapFields(source, JObj(spec), 0, [], call);
    FieldAppended(source, JObj(spec), 0, [], call, x0, w0);
    assert [] + [e0] == [e0];
    assert Find([e0], spec[1].name).None?;
    FieldAppended(source, JObj(spec), 1, [e0], call, x1, w1);
    assert [e0] + [e1] == [e0, e1];
    assert MapFields(source, JObj(spec), 2, [e0, e1], call) == Ok(JObj([e0, e1]));
  }

  /** A spec of two fields, the first resolving to a value under a plain output name and
      the second to undefined: the result holds the first value only. */
  lemma FieldThenSkipped(source: Json, spec: seq<Entry>, call: Callbacks, x0: Json)
    requires source.JObj? && |spec| == 2 && spec[0].name != "" && '.' !in spec[0].name
    requires ResolveRule(source, spec[0].val, call) == Ok(Some(x0)) && MapValue(x0, spec[0].val, call) == Ok(x0)
    requires ResolveRule(source, spec[1].val, call) == Ok(None)
    ensures MapObject(source, JObj(spec), call) == Ok(JObj([Entry(spec[0].name, x0)]))
  {
    var e0 := Entry(spec[0].name, x0);
    assert MapObject(source, JObj(spec), call) == MapFields(source, JObj(spec), 0, [], call);
    FieldAppended(source, JObj(spec), 0, [], call, x0, x0);
    assert [] + [e0] == [e0];
    FieldSkipped(source, JObj(spec), 1, [e0], call);
    assert MapFields(source, JObj(spec), 2, [e0], call) == Ok(JObj([e0]));
  }

  /** The field `a: 'a'` on a source whose `a` is 1. */
  lemma FieldA(source: Json, call: Callbacks)
    requires source.JObj? && Lookup(source.entries, "a") == Some(JNum(1))
    ensures ResolveRule(source, JStr("a"), call) == Ok(Some(JNum(1)))
    ensures MapValue(JNum(1), JStr("a"), call) == Ok(JNum(1))
  {
  }

  // ---------------------------------------------------------------- rule objects

  /** A rule object with neither `key`, `default` nor `custom` fails the assertion. */
  lemma EmptyRuleFails(source: Json, spec: Json, call: Callbacks)
    requires source == JObj([Entry("a", JNum(1)), Entry("b", JNum(2))])
    requires spec == JObj([Entry("a", JStr("a")), Entry("d", JObj([]))])
    ensures MapObject(source, spec, call) == Err(InvalidFieldRule)
  {
    FieldAppended(source, spec, 0, [], call, JNum(1), JNum(1));
  }

  /** `{a: 'a', d: {key: 'b'}}` on `{a: 1, b: 2}` gives `{a: 1, d: 2}`. */
  lemma UsesKey(source: Json, spec: seq<Entry>, call: Callbacks)
    requires source == JObj([Entry("a", JNum(1)), Entry("b", JNum(2))])
    requires spec == [Entry("a", JStr("a")), Entry("d", JObj([Entry("key", JStr("b"))]))]
    ensures MapObject(source, JObj(spec), call) == Ok(JObj([Entry("a", JNum(1)), Entry("d", JNum(2))]))
  {
    FieldA(source, call);
    KeyedRule(source, [Entry("key", JStr("b"))], call);
    assert ResolveRule(source, spec[1].val, call) == Ok(Some(JNum(2)));
    TwoFields(source, spec, call, JNum(1), JNum(1), JNum(2), JNum(2));
  }

  /** `{a: 'a', d: {key: 'b.c'}}` on `{a: 1, b: {c: 2}}` gives `{a: 1, d: 2}`. */
  lemma UsesNestedKey(source: Json, spec: seq<Entry>, call: Callbacks)
    requires source == JObj([Entry("a", JNum(1)), Entry("b", JObj([Entry("c", JNum(2))]))])
    requires spec == [Entry("a", JStr("a")), Entry("d", JObj([Entry("key", JStr("b.c"))]))]
    ensures MapObject(source, JObj(spec), call) == Ok(JObj([Entry("a", JNum(1)), Entry("d", JNum(2))]))
  {
    FieldA(source, call);
    ReadsBC(source, call);
    TwoFields(source, spec, call, JNum(1), JNum(1), JNum(2), JNum(2));
  }

  /** `{key: 'b.c'}` reads `c` under `b`. */
  lemma ReadsBC(source: Json, call: Callbacks)
    requires source == JObj([Entry("a", JNum(1)), Entry("b", JObj([Entry("c", JNum(2))]))])
    ensures ResolveRule(source, JObj([Entry("key", JStr("b.c"))]), call) == Ok(Some(JNum(2)))
  {
    KeyedRule(source, [Entry("key", JStr("b.c"))], call);
    assert "b.c" == "b" + "." + "c";
    GetDotted(source, "b", "c");
    assert Get(Some(source), "b") == Ok(Some(JObj([Entry("c", JNum(2))])));
  }

  // ---------------------------------------------------------------- dotted output keys

  /** `'d.e'` as the output key builds `{d: {e: 2}}` next to what is written already. */
  lemma WritesSubObject(m: seq<Entry>)
    requires m == [Entry("a", JNum(1))]
    ensures SetPathSpec(JObj(m), "d.e", JNum(2))
            == Outcome(JObj([Entry("a", JNum(1)), Entry("d", JObj([Entry("e", JNum(2))]))]), None)
  {
    assert "d.e" == "d" + "." + "e";
    SplitTwo("d", "e");
    var parts := Split("d.e");
    assert parts[..|parts| - 1] == ["d"] && NoEmptyPart(parts);
    assert Clear(m, ["d"]) by { assert Find(m, "d").None?; }
    SetPathVivifies(m, "d.e", JNum(2));
    VivifiesDE(m);
  }

  lemma VivifiesDE(m: seq<Entry>)
    requires m == [Entry("a", JNum(1))]
    ensures Vivify(m, ["d", "e"], JNum(2)) == [Entry("a", JNum(1)), Entry("d", JObj([Entry("e", JNum(2))]))]
  {
    var e := [Entry("e", JNum(2))];
    assert Vivify([], ["e"], JNum(2)) == e by {
      PutNew([], "e", JNum(2));
      assert [] + e == e;
    }
    assert ChildOrEmpty(m, "d") == [];
    assert ["d", "e"][1..] == ["e"];
    assert Vivify(m, ["d", "e"], JNum(2)) == Put(m, "d", JObj(e));
    PutNew(m, "d", JObj(e));
  }

  /** `{a: 'a', 'd.e': {key: 'b.c'}}` on `{a: 1, b: {c: 2}}` gives `{a: 1, d: {e: 2}}`. */
  lemma KeyWithSubObject(source: Json, spec: Json, call: Callbacks)
    requires source == JObj([Entry("a", JNum(1)), Entry("b", JObj([Entry("c", JNum(2))]))])
    requires spec == JObj([Entry("a", JStr("a")), Entry("d.e", JObj([Entry("key", JStr("b.c"))]))])
    ensures MapObject(source, spec, call) == Ok(JObj([Entry("a", JNum(1)), Entry("d", JObj([Entry("e", JNum(2))]))]))
  {
    var m1 := [Entry("a", JNum(1))];
    var m2 := [Entry("a", JNum(1)), Entry("d", JObj([Entry("e", JNum(2))]))];
    FieldA(source, call);
    FieldAppended(source, spec, 0, [], call, JNum(1), JNum(1));
    assert [] + [Entry("a", JNum(1))] == m1;
    ReadsBC(source, call);
    WritesSubObject(m1);
    assert MapValue(JNum(2), spec.entries[1].val, call) == Ok(JNum(2));
    FieldWritten(source, spec, 1, m1, call, JNum(2), JNum(2), m2);
    assert MapFields(source, spec, 2, m2, call) == Ok(JObj(m2));
  }

  /** `'d.e.f'` as the output key builds `{d: {e: {f: 2}}}`, creating both intermediate
      objects. */
  lemma WritesDeepSubObject(m: seq<Entry>)
    requires m == [Entry("a", JNum(1))]
    ensures SetPathSpec(JObj(m), "d.e.f", JNum(2))
            == Outcome(JObj([Entry("a", JNum(1)), Entry("d", JObj([Entry("e", JObj([Entry("f", JNum(2))]))]))]), None)
  {
    SplitDEF();
    var parts := Split("d.e.f");
    assert parts[..|parts| - 1] == ["d", "e"] && NoEmptyPart(parts);
    assert Clear(m, ["d", "e"]) by { assert Find(m, "d").None?; }
    SetPathVivifies(m, "d.e.f", JNum(2));
    VivifiesDEF(m);
  }

  lemma SplitDEF()
    ensures Split("d.e.f") == ["d", "e", "f"]
  {
    assert "e.f" == "e" + "." + "f";
    SplitTwo("e", "f");
    assert "d.e.f" == "d" + "." + "e.f";
    SplitConcat("d", "e.f");
    assert Split("d") == ["d"];
  }

  lemma VivifiesDEF(m: seq<Entry>)
    requires m == [Entry("a", JNum(1))]
    ensures Vivify(m, ["d", "e", "f"], JNum(2))
            == [Entry("a", JNum(1)), Entry("d", JObj([Entry("e", JObj([Entry("f", JNum(2))]))]))]
  {
    var e := [Entry("e", JObj([Entry("f", JNum(2))]))];
    VivifiesEF();
    assert ["d", "e", "f"][1..] == ["e", "f"];
    assert ChildOrEmpty(m, "d") == [];
    assert Vivify(m, ["d", "e", "f"], JNum(2)) == Put(m, "d", JObj(e));
    PutNew(m, "d", JObj(e));
  }

  lemma VivifiesEF()
    ensures Vivify([], ["e", "f"], JNum(2)) == [Entry("e", JObj([Entry("f", JNum(2))]))]
  {
    var f := [Entry("f", JNum(2))];
    var e := [Entry("e", JObj(f))];
    assert Vivify([], ["f"], JNum(2)) == f by { PutNew([], "f", JNum(2)); assert [] + f == f; }
    assert ["e", "f"][1..] == ["f"];
    assert ChildOrEmpty([], "e") == [];
    PutNew([], "e", JObj(f));
    assert [] + e == e;
  }

  /** `{a: 'a', 'd.e.f': {key: 'b.c'}}` on `{a: 1, b: {c: 2}}` gives `{a: 1, d: {e: {f: 2}}}`. */
  lemma KeyWithDeepSubObject(source: Json, spec: Json, call: Callbacks)
    requires source == JObj([Entry("a", JNum(1)), Entry("b", JObj([Entry("c", JNum(2))]))])
    requires spec == JObj([Entry("a", JStr("a")), Entry("d.e.f", JObj([Entry("key", JStr("b.c"))]))])
    ensures MapObject(source, spec, call)
            == Ok(JObj([Entry("a", JNum(1)), Entry("d", JObj([Entry("e", JObj([Entry("f", JNum(2))]))]))]))
  {
    var m1 := [Entry("a", JNum(1))];
    var m2 := [Entry("a", JNum(1)), Entry("d", JObj([Entry("e", JObj([Entry("f", JNum(2))]))]))];
    FieldA(source, call);
    FieldAppended(source, spec, 0, [], call, JNum(1), JNum(1));
    assert [] + [Entry("a", JNum(1))] == m1;
    ReadsBC(source, call);
    WritesDeepSubObject(m1);
    assert MapValue(JNum(2), spec.entries[1].val, call) == Ok(JNum(2));
    FieldWritten(source, spec, 1, m1, call, JNum(2), JNum(2), m2);
    assert MapFields(source, spec, 2, m2, call) == Ok(JObj(m2));
  }

  /** `'d.f'` written after `'d.e'` goes into the object `'d.e'` created. */
  lemma WritesSibling(m: seq<Entry>)
    requires m == [Entry("a", JNum(1)), Entry("d", JObj([Entry("e", JNum(2))]))]
    ensures SetPathSpec(JObj(m), "d.f", JNum(3))
            == Outcome(JObj([Entry("a", JNum(1)), Entry("d", JObj([Entry("e", JNum(2)), Entry("f", JNum(3))]))]), None)
  {
    assert "d.f" == "d" + "." + "f";
    SplitTwo("d", "f");
    var parts := Split("d.f");
    assert parts[..|parts| - 1] == ["d"] && NoEmptyPart(parts);
    assert Find(m, "d") == Some(1);
    assert Clear(m, ["d"]) by { assert ["d"][1..] == []; }
    SetPathVivifies(m, "d.f", JNum(3));
    var e := [Entry("e", JNum(2))];
    assert ChildOrEmpty(m, "d") == e;
    assert ["d", "f"][1..] == ["f"];
    assert Vivify(e, ["f"], JNum(3)) == e + [Entry("f", JNum(3))] by { PutNew(e, "f", JNum(3)); }
    var d := JObj(e + [Entry("f", JNum(3))]);
    assert Vivify(m, ["d", "f"], JNum(3)) == Put(m, "d", d);
    assert Put(m, "d", d) == m[1 := Entry("d", d)];
    assert e + [Entry("f", JNum(3))] == [Entry("e", JNum(2)), Entry("f", JNum(3))];
  }

  /** `{a: 'a', 'd.e': {key: 'b.c'}, 'd.f': 'b.z'}` on `{a: 1, b: {c: 2, z: 3}}` gives
      `{a: 1, d: {e: 2, f: 3}}`: sibling output paths share the parent the first one made. */
  lemma SiblingOutputPaths(source: Json, spec: Json, call: Callbacks)
    requires source == JObj([Entry("a", JNum(1)), Entry("b", JObj([Entry("c", JNum(2)), Entry("z", JNum(3))]))])
    requires spec == JObj([Entry("a", JStr("a")), Entry("d.e", JObj([Entry("key", JStr("b.c"))])), Entry("d.f", JStr("b.z"))])
    ensures MapObject(source, spec, call)
            == Ok(JObj([Entry("a", JNum(1)), Entry("d", JObj([Entry("e", JNum(2)), Entry("f", JNum(3))]))]))
  {
    var m1 := [Entry("a", JNum(1))];
    var m2 := [Entry("a", JNum(1)), Entry("d", JObj([Entry("e", JNum(2))]))];
    var m3 := [Entry("a", JNum(1)), Entry("d", JObj([Entry("e", JNum(2)), Entry("f", JNum(3))]))];
    FieldA(source, call);
    FieldAppended(source, spec, 0, [], call, JNum(1), JNum(1));
    assert [] + [Entry("a", JNum(1))] == m1;
    ReadsBCZ(source, call);
    WritesSubObject(m1);
    assert MapValue(JNum(2), spec.entries[1].val, call) == Ok(JNum(2));
    FieldWritten(source, spec, 1, m1, call, JNum(2), JNum(2), m2);
    WritesSibling(m2);
    assert MapValue(JNum(3), spec.entries[2].val, call) == Ok(JNum(3));
    FieldWritten(source, spec, 2, m2, call, JNum(3), JNum(3), m3);
    assert MapFields(source, spec, 3, m3, call) == Ok(JObj(m3));
  }

  /** `{key: 'b.c'}` and `'b.z'` on `{b: {c: 2, z: 3}}`. */
  lemma ReadsBCZ(source: Json, call: Callbacks)
    requires source == JObj([Entry("a", JNum(1)), Entry("b", JObj([Entry("c", JNum(2)), Entry("z", JNum(3))]))])
    ensures ResolveRule(source, JObj([Entry("key", JStr("b.c"))]), call) == Ok(Some(JNum(2)))
    ensures ResolveRule(source, JStr("b.z"), call) == Ok(Some(JNum(3)))
  {
    var b := JObj([Entry("c", JNum(2)), Entry("z", JNum(3))]);
    KeyedRule(source, [Entry("key", JStr("b.c"))], call);
    assert Get(Some(source), "b") == Ok(Some(b));
    assert "b.c" == "b" + "." + "c";
    GetDotted(source, "b", "c");
    assert "b.z" == "b" + "." + "z";
    GetDotted(source, "b", "z");
    assert Find(b.entries, "z") == Some(1);
    assert Get(Some(b), "z") == Prop(b, "z");
  }

  /** An output key with empty segments (`'d...e'`) fails `setPath`. */
  lemma DotsWithoutName(m: seq<Entry>, v: Json)
    ensures SetPathSpec(JObj(m), "d...e", v).failure.Some?
  {
    var s3 := "" + "." + "e";
    var s2 := "" + "." + s3;
    SplitConcat("", "e");
    assert Split("") == [""] && Split("e") == ["e"];
    assert Split(s3) == ["", "e"];
    SplitConcat("", s3);
    assert Split(s2) == ["", "", "e"];
    assert "d...e" == "d" + "." + s2;
    SplitConcat("d", s2);
    assert Split("d...e") == ["d"] + Split(s2);
    assert Split("d...e")[1] == "";
    SetPathFailsOnEmptySegment(JObj(m), "d...e", v, 1);
  }

  /** `{a: 'a', 'd...e': {key: 'b'}}` on `{a: 1, b: 2}` fails. */
  lemma MalformedOutputKeyFails(source: Json, spec: Json, call: Callbacks)
    requires source == JObj([Entry("a", JNum(1)), Entry("b", JNum(2))])
    requires spec == JObj([Entry("a", JStr("a")), Entry("d...e", JObj([Entry("key", JStr("b"))]))])
    ensures MapObject(source, spec, call).Err?
  {
    var m1 := [Entry("a", JNum(1))];
    FieldA(source, call);
    FieldAppended(source, spec, 0, [], call, JNum(1), JNum(1));
    assert [] + [Entry("a", JNum(1))] == m1;
    ReadsB(source, call);
    assert MapValue(JNum(2), spec.entries[1].val, call) == Ok(JNum(2));
    DotsWithoutName(m1, JNum(2));
    FieldFails(source, spec, 1, m1, call);
  }

  lemma ReadsB(source: Json, call: Callbacks)
    requires source == JObj([Entry("a", JNum(1)), Entry("b", JNum(2))])
    ensures ResolveRule(source, JObj([Entry("key", JStr("b"))]), call) == Ok(Some(JNum(2)))
  {
    KeyedRule(source, [Entry("key", JStr("b"))], call);
  }

  // ---------------------------------------------------------------- default and custom

  /** `{a: 'a', d: {key: 'b.c', default: 2}}` on `{a: 1, b: {}}` gives `{a: 1, d: 2}`. */
  lemma UsesDefault(source: Json, spec: seq<Entry>, call: Callbacks)
    requires source == JObj([Entry("a", JNum(1)), Entry("b", JObj([]))])
    requires spec == [Entry("a", JStr("a")), Entry("d", JObj([Entry("key", JStr("b.c")), Entry("default", JNum(2))]))]
    ensures MapObject(source, JObj(spec), call) == Ok(JObj([Entry("a", JNum(1)), Entry("d", JNum(2))]))
  {
    FieldA(source, call);
    DefaultForMissing(source, call);
    TwoFields(source, spec, call, JNum(1), JNum(1), JNum(2), JNum(2));
  }

  /** `{key: 'b.c', default: 2}` on an empty `b` resolves to the default. */
  lemma DefaultForMissing(source: Json, call: Callbacks)
    requires source == JObj([Entry("a", JNum(1)), Entry("b", JObj([]))])
    ensures ResolveRule(source, JObj([Entry("key", JStr("b.c")), Entry("default", JNum(2))]), call) == Ok(Some(JNum(2)))
  {
    var rule := [Entry("key", JStr("b.c")), Entry("default", JNum(2))];
    assert Lookup(rule, "custom") == None && Lookup(rule, "key") == Some(JStr("b.c"));
    assert Lookup(rule, "default") == Some(JNum(2));
    KeyedRule(source, rule, call);
    assert "b.c" == "b" + "." + "c";
    GetDotted(source, "b", "c");
    assert Get(Some(source), "b") == Ok(Some(JObj([])));
    assert GetByKey(Some(source), JStr("b.c")) == Ok(None);
  }

  /** `{a: 'a', d: {key: 'b.c', default: 4}}` on `{a: 1, b: {c: 2}}` gives `{a: 1, d: 2}`. */
  lemma IgnoresDefault(source: Json, spec: seq<Entry>, call: Callbacks)
    requires source == JObj([Entry("a", JNum(1)), Entry("b", JObj([Entry("c", JNum(2))]))])
    requires spec == [Entry("a", JStr("a")), Entry("d", JObj([Entry("key", JStr("b.c")), Entry("default", JNum(4))]))]
    ensures MapObject(source, JObj(spec), call) == Ok(JObj([Entry("a", JNum(1)), Entry("d", JNum(2))]))
  {
    var rule := [Entry("key", JStr("b.c")), Entry("default", JNum(4))];
    assert Lookup(rule, "custom") == None && Lookup(rule, "key") == Some(JStr("b.c"));
    assert Lookup(rule, "default") == Some(JNum(4));
    KeyedRule(source, rule, call);
    assert "b.c" == "b" + "." + "c";
    GetDotted(source, "b", "c");
    assert Get(Some(source), "b") == Ok(Some(JObj([Entry("c", JNum(2))])));
    assert GetByKey(Some(source), JStr("b.c")) == Ok(Some(JNum(2)));
    FieldA(source, call);
    assert ResolveRule(source, spec[1].val, call) == Ok(Some(JNum(2)));
    TwoFields(source, spec, call, JNum(1), JNum(1), JNum(2), JNum(2));
  }

  /** `{a: 'a', d: {default: 4}}` on `{a: 1, b: {c: 2}}` gives `{a: 1, d: 4}`. */
  lemma DefaultOnly(source: Json, spec: seq<Entry>, call: Callbacks)
    requires source == JObj([Entry("a", JNum(1)), Entry("b", JObj([Entry("c", JNum(2))]))])
    requires spec == [Entry("a", JStr("a")), Entry("d", JObj([Entry("default", JNum(4))]))]
    ensures MapObject(source, JObj(spec), call) == Ok(JObj([Entry("a", JNum(1)), Entry("d", JNum(4))]))
  {
    FieldA(source, call);
    assert ResolveRule(source, spec[1].val, call) == Ok(Some(JNum(4)));
    TwoFields(source, spec, call, JNum(1), JNum(1), JNum(4), JNum(4));
  }

  /** `{a: 'a', b: {custom: f}}` on `{a: 1, b: {c: 2}}`, with `f` returning `source.b.c + 1`,
      gives `{a: 1, b: 3}`. */
  lemma UsesCustom(source: Json, spec: seq<Entry>)
    requires source == JObj([Entry("a", JNum(1)), Entry("b", JObj([Entry("c", JNum(2))]))])
    requires spec == [Entry("a", JStr("a")), Entry("b", JObj([Entry("custom", JFunc(0))]))]
    ensures MapObject(source, JObj(spec), IncrementBC) == Ok(JObj([Entry("a", JNum(1)), Entry("b", JNum(3))]))
  {
    FieldA(source, IncrementBC);
    assert ResolveRule(source, spec[1].val, IncrementBC) == Ok(Some(JNum(3)));
    TwoFields(source, spec, IncrementBC, JNum(1), JNum(1), JNum(3), JNum(3));
  }

  /** The test's `custom` function: `source.b.c + 1`. */
  function IncrementBC(id: nat, source: Json): Option<Json> {
    match Lookup(if source.JObj? then source.entries else [], "b")
    case Some(JObj(b)) =>
      (match Lookup(b, "c")
       case Some(JNum(n)) => Some(JNum(n + 1))
       case _ => None)
    case _ => None
  }

  // ---------------------------------------------------------------- arrays

  /** `{a: 'a', d: {key: 'b'}}` on `{a: 1, b: [{c: 1}, {c: 2}]}` passes the array through. */
  lemma PassesArray(source: Json, spec: seq<Entry>, call: Callbacks, items: seq<Json>)
    requires items == [JObj([Entry("c", JNum(1))]), JObj([Entry("c", JNum(2))])]
    requires source == JObj([Entry("a", JNum(1)), Entry("b", JArr(items))])
    requires spec == [Entry("a", JStr("a")), Entry("d", JObj([Entry("key", JStr("b"))]))]
    ensures MapObject(source, JObj(spec), call) == Ok(JObj([Entry("a", JNum(1)), Entry("d", JArr(items))]))
  {
    FieldA(source, call);
    KeyedRule(source, [Entry("key", JStr("b"))], call);
    assert Find(source.entries, "b") == Some(1);
    assert Lookup(source.entries, "b") == Some(JArr(items));
    assert Get(Some(source), "b") == Prop(source, "b");
    assert GetByKey(Some(source), JStr("b")) == Ok(Some(JArr(items)));
    assert ResolveRule(source, spec[1].val, call) == Ok(Some(JArr(items)));
    assert Nested(spec[1].val) == None;
    TwoFields(source, spec, call, JNum(1), JNum(1), JArr(items), JArr(items));
  }

  /** `{a: 'a', d: {key: 'b', map: {c: 'c'}}}` on `{a: 1, b: [{c: 1, d: 1}, {c: 2, d: 2}]}`
      gives `{a: 1, d: [{c: 1}, {c: 2}]}`. */
  lemma MapsArray(source: Json, spec: seq<Entry>, call: Callbacks, items: seq<Json>)
    requires items == [JObj([Entry("c", JNum(1)), Entry("d", JNum(1))]), JObj([Entry("c", JNum(2)), Entry("d", JNum(2))])]
    requires source == JObj([Entry("a", JNum(1)), Entry("b", JArr(items))])
    requires spec == [Entry("a", JStr("a")), Entry("d", JObj([Entry("key", JStr("b")), Entry("map", JObj([Entry("c", JStr("c"))]))]))]
    ensures MapObject(source, JObj(spec), call)
            == Ok(JObj([Entry("a", JNum(1)), Entry("d", JArr([JObj([Entry("c", JNum(1))]), JObj([Entry("c", JNum(2))])]))]))
  {
    var sub := JObj([Entry("c", JStr("c"))]);
    KeepsC(items[0], 1, call);
    KeepsC(items[1], 2, call);
    ArrayField(source, spec, sub, call, items, [JObj([Entry("c", JNum(1))]), JObj([Entry("c", JNum(2))])]);
  }

  /** `{c: 'c'}` keeps just `c` of an element. */
  lemma KeepsC(item: Json, n: int, call: Callbacks)
    requires item == JObj([Entry("c", JNum(n)), Entry("d", JNum(n))])
    ensures MapObject(item, JObj([Entry("c", JStr("c"))]), call) == Ok(JObj([Entry("c", JNum(n))]))
  {
    var spec := [Entry("c", JStr("c"))];
    assert PathRules(spec);
    PathSpecSelects(item, spec, call);
    SelectedStep(item, spec, 0);
    assert spec[0..] == spec && spec[1..] == [];
    assert GetByKey(Some(item), JStr("c")) == Ok(Some(JNum(n)));
    assert [Entry("c", JNum(n))] + [] == [Entry("c", JNum(n))];
  }

  /** `{c: 'c', f: {default: 2}}` on `{c: n, d: n}` gives `{c: n, f: 2}`: a nested spec may
      hold rule objects. */
  lemma KeepsCAddsF(item: Json, n: int, call: Callbacks)
    requires item == JObj([Entry("c", JNum(n)), Entry("d", JNum(n))])
    ensures MapObject(item, JObj([Entry("c", JStr("c")), Entry("f", JObj([Entry("default", JNum(2))]))]), call)
            == Ok(JObj([Entry("c", JNum(n)), Entry("f", JNum(2))]))
  {
    var spec := [Entry("c", JStr("c")), Entry("f", JObj([Entry("default", JNum(2))]))];
    assert ResolveRule(item, JStr("c"), call) == Ok(Some(JNum(n)));
    assert ResolveRule(item, spec[1].val, call) == Ok(Some(JNum(2)));
    TwoFields(item, spec, call, JNum(n), JNum(n), JNum(2), JNum(2));
  }

  /** `{a: 'a', d: {key: 'b', map: {c: 'c', f: {default: 2}}}}` maps each element to
      `{c: .., f: 2}`. */
  lemma MapsArrayWithRules(source: Json, spec: seq<Entry>, call: Callbacks, items: seq<Json>)
    requires items == [JObj([Entry("c", JNum(1)), Entry("d", JNum(1))]), JObj([Entry("c", JNum(2)), Entry("d", JNum(2))])]
    requires source == JObj([Entry("a", JNum(1)), Entry("b", JArr(items))])
    requires spec == [Entry("a", JStr("a")), Entry("d", JObj([Entry("key", JStr("b")),
      Entry("map", JObj([Entry("c", JStr("c")), Entry("f", JObj([Entry("default", JNum(2))]))]))]))]
    ensures MapObject(source, JObj(spec), call)
            == Ok(JObj([Entry("a", JNum(1)), Entry("d", JArr([JObj([Entry("c", JNum(1)), Entry("f", JNum(2))]),
                                                                JObj([Entry("c", JNum(2)), Entry("f", JNum(2))])]))]))
  {
    var sub := JObj([Entry("c", JStr("c")), Entry("f", JObj([Entry("default", JNum(2))]))]);
    KeepsCAddsF(items[0], 1, call);
    KeepsCAddsF(items[1], 2, call);
    ArrayField(source, spec, sub, call, items,
      [JObj([Entry("c", JNum(1)), Entry("f", JNum(2))]), JObj([Entry("c", JNum(2)), Entry("f", JNum(2))])]);
  }

  // ---------------------------------------------------------------- nested arrays

  /** A rule `{key: k, map: sub}` whose key reads an array whose elements map to `outs`. */
  lemma KeyMapRule(source: Json, k: string, sub: Json, call: Callbacks, items: seq<Json>, outs: seq<Json>)
    requires source.JObj? && k != "" && '.' !in k && Lookup(source.entries, k) == Some(JArr(items))
    requires sub.JObj? && MappedTo(items, sub, call, outs)
    ensures ResolveRule(source, JObj([Entry("key", JStr(k)), Entry("map", sub)]), call) == Ok(Some(JArr(items)))
    ensures MapValue(JArr(items), JObj([Entry("key", JStr(k)), Entry("map", sub)]), call) == Ok(JArr(outs))
  {
    var rule := [Entry("key", JStr(k)), Entry("map", sub)];
    assert Lookup(rule, "custom") == None && Lookup(rule, "default") == None;
    assert Lookup(rule, "key") == Some(JStr(k));
    assert Find(rule, "map") == Some(1);
    KeyedRule(source, rule, call);
    assert Get(Some(source), k) == Prop(source, k);
    MapItemsElementwise(items, sub, call);
    assert AllMapped(items, sub, call);
    var r := MapItems(items, sub, call);
    assert r.value == outs;
  }

  /** `{a: 'a', d: {key: 'b', map: sub}}` on `{a: 1, b: [x0, x1]}` where `sub` maps `x0`
      and `x1` to `y0` and `y1` gives `{a: 1, d: [y0, y1]}`. */
  lemma ArrayField(source: Json, spec: seq<Entry>, sub: Json, call: Callbacks, items: seq<Json>, outs: seq<Json>)
    requires |items| == 2 == |outs| && sub.JObj?
    requires MapObject(items[0], sub, call) == Ok(outs[0]) && MapObject(items[1], sub, call) == Ok(outs[1])
    requires source == JObj([Entry("a", JNum(1)), Entry("b", JArr(items))])
    requires spec == [Entry("a", JStr("a")), Entry("d", JObj([Entry("key", JStr("b")), Entry("map", sub)]))]
    ensures MapObject(source, JObj(spec), call) == Ok(JObj([Entry("a", JNum(1)), Entry("d", JArr(outs))]))
  {
    FieldA(source, call);
    assert Find(source.entries, "b") == Some(1);
    assert MappedTo(items, sub, call, outs);
    KeyMapRule(source, "b", sub, call, items, outs);
    TwoFields(source, spec, call, JNum(1), JNum(1), JArr(items), JArr(outs));
  }

  /** `{c: 'c', v: {key: 'd', map: inner}}` on `{c: n, d: [x]}` where `inner` maps `x` to `y`
      gives `{c: n, v: [y]}`. */
  lemma MiddleElement(n: int, x: Json, inner: Json, y: Json, call: Callbacks)
    requires inner.JObj? && MapObject(x, inner, call) == Ok(y)
    ensures MapObject(JObj([Entry("c", JNum(n)), Entry("d", JArr([x]))]),
                      JObj([Entry("c", JStr("c")), Entry("v", JObj([Entry("key", JStr("d")), Entry("map", inner)]))]), call)
            == Ok(JObj([Entry("c", JNum(n)), Entry("v", JArr([y]))]))
  {
    var item := JObj([Entry("c", JNum(n)), Entry("d", JArr([x]))]);
    var spec := [Entry("c", JStr("c")), Entry("v", JObj([Entry("key", JStr("d")), Entry("map", inner)]))];
    assert Find(item.entries, "d") == Some(1);
    assert MappedTo([x], inner, call, [y]);
    KeyMapRule(item, "d", inner, call, [x], [y]);
    assert ResolveRule(item, JStr("c"), call) == Ok(Some(JNum(n))) by {
      assert Find(item.entries, "c") == Some(0);
      assert Get(Some(item), "c") == Prop(item, "c");
    }
    TwoFields(item, spec, call, JNum(n), JNum(n), JArr([x]), JArr([y]));
  }

  /** `{e1: 'e', f1: 'f'}` on `{e: x, f: y}` gives `{e1: x, f1: y}`. */
  lemma RenamesEF(x: int, y: int, call: Callbacks)
    ensures MapObject(JObj([Entry("e", JNum(x)), Entry("f", JNum(y))]),
                      JObj([Entry("e1", JStr("e")), Entry("f1", JStr("f"))]), call)
            == Ok(JObj([Entry("e1", JNum(x)), Entry("f1", JNum(y))]))
  {
    var item := JObj([Entry("e", JNum(x)), Entry("f", JNum(y))]);
    var spec := [Entry("e1", JStr("e")), Entry("f1", JStr("f"))];
    assert ResolveRule(item, JStr("e"), call) == Ok(Some(JNum(x)));
    assert Find(item.entries, "f") == Some(1);
    assert Get(Some(item), "f") == Prop(item, "f");
    assert ResolveRule(item, JStr("f"), call) == Ok(Some(JNum(y)));
    TwoFields(item, spec, call, JNum(x), JNum(x), JNum(y), JNum(y));
  }

  /** `{e1: 'e', f1: {custom: g}}` on `{e: x, f: y}`, with `g` returning `source.f + 1`, gives
      `{e1: x, f1: y + 1}`: the nested `custom` receives the element as its source. */
  lemma CustomOnElement(x: int, y: int)
    ensures MapObject(JObj([Entry("e", JNum(x)), Entry("f", JNum(y))]),
                      JObj([Entry("e1", JStr("e")), Entry("f1", JObj([Entry("custom", JFunc(0))]))]), IncrementF)
            == Ok(JObj([Entry("e1", JNum(x)), Entry("f1", JNum(y + 1))]))
  {
    var item := JObj([Entry("e", JNum(x)), Entry("f", JNum(y))]);
    var spec := [Entry("e1", JStr("e")), Entry("f1", JObj([Entry("custom", JFunc(0))]))];
    assert ResolveRule(item, JStr("e"), IncrementF) == Ok(Some(JNum(x)));
    assert Find(item.entries, "f") == Some(1);
    assert IncrementF(0, item) == Some(JNum(y + 1));
    assert ResolveRule(item, spec[1].val, IncrementF) == Ok(Some(JNum(y + 1)));
    TwoFields(item, spec, IncrementF, JNum(x), JNum(x), JNum(y + 1), JNum(y + 1));
  }

  /** The nested test's `custom` function: `source.f + 1`. */
  function IncrementF(id: nat, source: Json): Option<Json> {
    match Lookup(if source.JObj? then source.entries else [], "f")
    case Some(JNum(n)) => Some(JNum(n + 1))
    case _ => None
  }

  /** `{a: 'a', d: {key: 'b', map: {c: 'c', v: {key: 'd', map: {e1: 'e', f1: 'f'}}}}}` maps
      the arrays at both levels. */
  lemma MapsNestedArrays(source: Json, spec: seq<Entry>, call: Callbacks)
    requires source == JObj([Entry("a", JNum(1)), Entry("b", JArr([
      JObj([Entry("c", JNum(1)), Entry("d", JArr([JObj([Entry("e", JNum(3)), Entry("f", JNum(4))])]))]),
      JObj([Entry("c", JNum(2)), Entry("d", JArr([JObj([Entry("e", JNum(5)), Entry("f", JNum(6))])]))])]))])
    requires spec == [Entry("a", JStr("a")), Entry("d", JObj([Entry("key", JStr("b")), Entry("map",
      JObj([Entry("c", JStr("c")), Entry("v", JObj([Entry("key", JStr("d")), Entry("map",
        JObj([Entry("e1", JStr("e")), Entry("f1", JStr("f"))]))]))]))]))]
    ensures MapObject(source, JObj(spec), call) == Ok(JObj([Entry("a", JNum(1)), Entry("d", JArr([
      JObj([Entry("c", JNum(1)), Entry("v", JArr([JObj([Entry("e1", JNum(3)), Entry("f1", JNum(4))])]))]),
      JObj([Entry("c", JNum(2)), Entry("v", JArr([JObj([Entry("e1", JNum(5)), Entry("f1", JNum(6))])]))])]))]))
  {
    var inner := JObj([Entry("e1", JStr("e")), Entry("f1", JStr("f"))]);
    var mid := JObj([Entry("c", JStr("c")), Entry("v", JObj([Entry("key", JStr("d")), Entry("map", inner)]))]);
    RenamesEF(3, 4, call);
    RenamesEF(5, 6, call);
    MiddleElement(1, JObj([Entry("e", JNum(3)), Entry("f", JNum(4))]), inner, JObj([Entry("e1", JNum(3)), Entry("f1", JNum(4))]), call);
    MiddleElement(2, JObj([Entry("e", JNum(5)), Entry("f", JNum(6))]), inner, JObj([Entry("e1", JNum(5)), Entry("f1", JNum(6))]), call);
    ArrayField(source, spec, mid, call, source.entries[1].val.items, [
      JObj([Entry("c", JNum(1)), Entry("v", JArr([JObj([Entry("e1", JNum(3)), Entry("f1", JNum(4))])]))]),
      JObj([Entry("c", JNum(2)), Entry("v", JArr([JObj([Entry("e1", JNum(5)), Entry("f1", JNum(6))])]))])]);
  }

  /** As `MapsNestedArrays` with `f1: {custom: g}`, `g` returning `source.f + 1`: each
      innermost element is the source of its own `custom` call. */
  lemma CustomInNested(source: Json, spec: seq<Entry>)
    requires source == JObj([Entry("a", JNum(1)), Entry("b", JArr([
      JObj([Entry("c", JNum(1)), Entry("d", JArr([JObj([Entry("e", JNum(3)), Entry("f", JNum(4))])]))]),
      JObj([Entry("c", JNum(2)), Entry("d", JArr([JObj([Entry("e", JNum(5)), Entry("f", JNum(6))])]))])]))])
    requires spec == [Entry("a", JStr("a")), Entry("d", JObj([Entry("key", JStr("b")), Entry("map",
      JObj([Entry("c", JStr("c")), Entry("v", JObj([Entry("key", JStr("d")), Entry("map",
        JObj([Entry("e1", JStr("e")), Entry("f1", JObj([Entry("custom", JFunc(0))]))]))]))]))]))]
    ensures MapObject(source, JObj(spec), IncrementF) == Ok(JObj([Entry("a", JNum(1)), Entry("d", JArr([
      JObj([Entry("c", JNum(1)), Entry("v", JArr([JObj([Entry("e1", JNum(3)), Entry("f1", JNum(5))])]))]),
      JObj([Entry("c", JNum(2)), Entry("v", JArr([JObj([Entry("e1", JNum(5)), Entry("f1", JNum(7))])]))])]))]))
  {
    var inner := JObj([Entry("e1", JStr("e")), Entry("f1", JObj([Entry("custom", JFunc(0))]))]);
    var mid := JObj([Entry("c", JStr("c")), Entry("v", JObj([Entry("key", JStr("d")), Entry("map", inner)]))]);
    CustomOnElement(3, 4);
    CustomOnElement(5, 6);
    MiddleElement(1, JObj([Entry("e", JNum(3)), Entry("f", JNum(4))]), inner, JObj([Entry("e1", JNum(3)), Entry("f1", JNum(5))]), IncrementF);
    MiddleElement(2, JObj([Entry("e", JNum(5)), Entry("f", JNum(6))]), inner, JObj([Entry("e1", JNum(5)), Entry("f1", JNum(7))]), IncrementF);
    ArrayField(source, spec, mid, IncrementF, source.entries[1].val.items, [
      JObj([Entry("c", JNum(1)), Entry("v", JArr([JObj([Entry("e1", JNum(3)), Entry("f1", JNum(5))])]))]),
      JObj([Entry("c", JNum(2)), Entry("v", JArr([JObj([Entry("e1", JNum(5)), Entry("f1", JNum(7))])]))])]);
  }
}

/** `setPath(obj, path, value)`: the writer that creates a `{}` for every missing intermediate
    segment of an output path, and its reference definition `Vivify`. */
module AutoVivify {
  import opened JsonValues
  import opened PathAccess

  /** What `setPath` leaves behind: `obj` as its loop left it, and the error that stopped the
      loop, if any. Writes made before the error stay made. */
  datatype Outcome = Outcome(tree: Json, failure: Option<Error>)

  /** The `forEach` of `setPath` from segment `i` on, `sub` being the path accumulated so far:
      an empty segment fails; a non-final segment whose value is null or undefined gets `{}`
      through a strict `set`; the final segment gets the value through a strict `set`. */
  function SetPathFrom(t: Json, parts: seq<string>, i: nat, sub: string, value: Json): (r: Outcome)
    requires i < |parts|
    ensures t.JObj? ==> r.tree.JObj?
    decreases |parts| - i
  {
    if parts[i] == "" then Outcome(t, Some(InvalidArgument))
    else
      var sub' := if |sub| > 0 then sub + "." + parts[i] else parts[i];
      if i == |parts| - 1 then
        match Set(Some(t), sub', value, false)
        case Err(e) => Outcome(t, Some(e))
        case Ok(w) => Outcome(w.tree.value, None)
      else
        match Get(Some(t), sub')
        case Err(e) => Outcome(t, Some(e))
        case Ok(current) =>
          if !IsNone(current) then SetPathFrom(t, parts, i + 1, sub', value)
          else
            match Set(Some(t), sub', JObj([]), false)
            case Err(e) => Outcome(t, Some(e))
            case Ok(w) => SetPathFrom(w.tree.value, parts, i + 1, sub', value)
  }

  /** The effect of `setPath(obj, path, value)`. */
  function SetPathSpec(obj: Json, path: string, value: Json): Outcome {
    SetPathFrom(obj, Split(path), 0, "", value)
  }

  /** `setPath(obj, path, value)`, step by step; the new state of `obj` is returned. */
  method SetPath(obj: Json, path: string, value: Json) returns (tree: Json, failure: Option<Error>)
    ensures Outcome(tree, failure) == SetPathSpec(obj, path, value)
  {
    var parts := Split(path);
    var subPath := "";
    tree := obj;
    var i := 0;
    while i < |parts| - 1
      invariant 0 <= i <= |parts| - 1
      invariant SetPathFrom(tree, parts, i, subPath, value) == SetPathSpec(obj, path, value)
    {
      if parts[i] == "" {
        return tree, Some(InvalidArgument);
      }
      subPath := if |subPath| > 0 then subPath + "." + parts[i] else parts[i];
      var current := Get(Some(tree), subPath);
      if current.Err? {
        return tree, Some(current.error);
      }
      if IsNone(current.value) {
        var w := Set(Some(tree), subPath, JObj([]), false);
        if w.Err? {
          return tree, Some(w.error);
        }
        tree := w.value.tree.value;
      }
      i := i + 1;
    }
    if parts[i] == "" {
      return tree, Some(InvalidArgument);
    }
    subPath := if |subPath| > 0 then subPath + "." + parts[i] else parts[i];
    var w := Set(Some(tree), subPath, value, false);
    if w.Err? {
      return tree, Some(w.error);
    }
    tree, failure := w.value.tree.value, None;
  }

  // ---------------------------------------------------------------- the reference definition

  /** The object under `k` that a write below `k` goes into: the plain object already there,
      or a new `{}`. */
  function ChildOrEmpty(es: seq<Entry>, k: string): seq<Entry> {
    match Lookup(es, k)
    case Some(JObj(c)) => c
    case _ => []
  }

  /** The intended result of `setPath` on a plain object: every intermediate segment holds a
      plain object, a new `{}` where there was none, and the last segment holds the value. */
  function Vivify(es: seq<Entry>, parts: seq<string>, value: Json): seq<Entry>
    requires |parts| >= 1
    decreases |parts|
  {
    if |parts| == 1 then Put(es, parts[0], value)
    else Put(es, parts[0], JObj(Vivify(ChildOrEmpty(es, parts[0]), parts[1..], value)))
  }

  /** Every segment of `parts` meets a plain object, null or undefined: never a number, a
      string, a boolean, an array or a function left there by an earlier write. */
  predicate Clear(es: seq<Entry>, parts: seq<string>)
    decreases |parts|
  {
    parts == [] ||
    match Lookup(es, parts[0])
    case None => true
    case Some(JNull) => true
    case Some(JObj(c)) => Clear(c, parts[1..])
    case Some(_) => false
  }

  /** The object after the first `|ps|` passes of the loop: every prefix of `ps` holds a
      plain object. */
  function Ensure(es: seq<Entry>, ps: seq<string>): seq<Entry>
    decreases |ps|
  {
    if ps == [] then es else Put(es, ps[0], JObj(Ensure(ChildOrEmpty(es, ps[0]), ps[1..])))
  }

  /** The properties of the object that `Ensure(es, ps)` holds at `ps`. */
  function EnsuredAt(es: seq<Entry>, ps: seq<string>): seq<Entry>
    decreases |ps|
  {
    if ps == [] then es else EnsuredAt(ChildOrEmpty(es, ps[0]), ps[1..])
  }

  // ---------------------------------------------------------------- facts

  lemma {:induction false} ClearPrefix(es: seq<Entry>, ps: seq<string>, j: nat)
    requires Clear(es, ps) && j <= |ps|
    ensures Clear(es, ps[..j])
    decreases |ps|
  {
    if j > 0 {
      assert ps[..j][0] == ps[0] && ps[..j][1..] == ps[1..][..j - 1];
      match Lookup(es, ps[0])
      case Some(JObj(c)) => ClearPrefix(c, ps[1..], j - 1);
      case _ =>
    }
  }

  lemma ClearEmpty(ps: seq<string>)
    ensures Clear([], ps)
  {
  }

  /** After the passes over `ps`, walking `ps` reaches a plain object. */
  lemma {:induction false} EnsureWalk(es: seq<Entry>, ps: seq<string>)
    requires NoEmptyPart(ps) && DotFree(ps)
    ensures Walk(Some(JObj(Ensure(es, ps))), ps) == Ok(Some(JObj(EnsuredAt(es, ps))))
    decreases |ps|
  {
    if ps != [] {
      var c := ChildOrEmpty(es, ps[0]);
      EnsureWalk(c, ps[1..]);
      assert Get(Some(JObj(Ensure(es, ps))), ps[0]) == Ok(Some(JObj(Ensure(c, ps[1..]))));
    }
  }

  /** One more pass of the loop, over segment `x`, on a clear path: `{}` is written under `x`
      exactly when the value there is null or undefined. */
  lemma {:induction false} EnsureStep(es: seq<Entry>, ps: seq<string>, x: string)
    requires Clear(es, ps + [x])
    ensures Ensure(es, ps + [x]) ==
      if IsNone(Lookup(EnsuredAt(es, ps), x))
      then AssignAt(JObj(Ensure(es, ps)), ps, x, JObj([])).entries
      else Ensure(es, ps)
    decreases |ps|
  {
    if ps == [] {
      assert Ensure(es, [x]) == Put(es, x, JObj(ChildOrEmpty(es, x)));
      if !IsNone(Lookup(es, x)) {
        PutSame(es, x);
      }
    } else {
      var p, r := ps[0], ps[1..];
      var c := ChildOrEmpty(es, p);
      assert (ps + [x])[0] == p && (ps + [x])[1..] == r + [x];
      assert Clear(c, r + [x]) by {
        match Lookup(es, p)
        case Some(JObj(_)) =>
        case _ => ClearEmpty(r + [x]);
      }
      EnsureStep(c, r, x);
      var e := Put(es, p, JObj(Ensure(c, r)));
      assert Ensure(es, ps) == e;
      if IsNone(Lookup(EnsuredAt(c, r), x)) {
        assert AssignAt(JObj(e), ps, x, JObj([])) == JObj(Put(e, p, AssignAt(JObj(Ensure(c, r)), r, x, JObj([]))));
        PutPut(es, p, JObj(Ensure(c, r)), AssignAt(JObj(Ensure(c, r)), r, x, JObj([])));
      }
    }
  }

  /** The last pass of the loop, on the object the earlier passes left, gives `Vivify`. */
  lemma {:induction false} EnsureThenAssign(es: seq<Entry>, ps: seq<string>, x: string, value: Json)
    ensures Vivify(es, ps + [x], value) == AssignAt(JObj(Ensure(es, ps)), ps, x, value).entries
    decreases |ps|
  {
    if ps != [] {
      var p, r := ps[0], ps[1..];
      var c := ChildOrEmpty(es, p);
      assert (ps + [x])[0] == p && (ps + [x])[1..] == r + [x];
      EnsureThenAssign(c, r, x, value);
      PutPut(es, p, JObj(Ensure(c, r)), AssignAt(JObj(Ensure(c, r)), r, x, value));
    }
  }

  /** The path accumulated over the first `i` segments. */
  function SubPath(parts: seq<string>, i: nat): string
    requires i <= |parts|
  {
    if i == 0 then "" else Join(parts[..i])
  }

  lemma SubPathStep(parts: seq<string>, i: nat)
    requires i < |parts| && NoEmptyPart(parts)
    ensures SubPath(parts, i + 1) ==
      if |SubPath(parts, i)| > 0 then SubPath(parts, i) + "." + parts[i] else parts[i]
  {
    assert parts[..i + 1] == parts[..i] + [parts[i]];
    if i > 0 {
      JoinSnoc(parts[..i], parts[i]);
      assert parts[..i][0] == parts[0];
    } else {
      assert parts[..1] == [parts[0]];
    }
  }

  /** Reading `Join(ps + [x])` from the object the passes over `ps` left reads `x` of the
      object at `ps`. */
  lemma ReadAfterEnsure(es: seq<Entry>, ps: seq<string>, x: string)
    requires NoEmptyPart(ps) && DotFree(ps + [x]) && DotFree(ps) && x != ""
    ensures Get(Some(JObj(Ensure(es, ps))), Join(ps + [x])) == Ok(Lookup(EnsuredAt(es, ps), x))
  {
    var root := Some(JObj(Ensure(es, ps)));
    assert '.' !in x by { assert (ps + [x])[|ps|] == x; }
    EnsureWalk(es, ps);
    WalkLeaf(root, ps, x, EnsuredAt(es, ps));
    SplitJoin(ps + [x]);
    GetIsWalk(root, Join(ps + [x]));
  }

  /** The first `i + 1` segments of a clear path are clear. */
  lemma ClearUpTo(es: seq<Entry>, parts: seq<string>, i: nat)
    requires i < |parts| - 1 && Clear(es, parts[..|parts| - 1])
    ensures Clear(es, parts[..i] + [parts[i]])
  {
    ClearPrefix(es, parts[..|parts| - 1], i + 1);
    assert parts[..|parts| - 1][..i + 1] == parts[..i] + [parts[i]];
  }

  /** One pass of the loop over a segment that is not the last: on a clear path it leaves
      `Ensure` of one more segment. */
  lemma PassNonFinal(es: seq<Entry>, parts: seq<string>, i: nat, value: Json)
    requires i < |parts| - 1 && NoEmptyPart(parts) && DotFree(parts)
    requires Clear(es, parts[..|parts| - 1])
    ensures SetPathFrom(JObj(Ensure(es, parts[..i])), parts, i, SubPath(parts, i), value)
            == SetPathFrom(JObj(Ensure(es, parts[..i + 1])), parts, i + 1, SubPath(parts, i + 1), value)
  {
    var pre, x := parts[..i], parts[i];
    var e := Ensure(es, pre);
    assert parts[..i + 1] == pre + [x];
    assert DotFree(pre) && NoEmptyPart(pre) && DotFree(pre + [x]);
    SubPathStep(parts, i);
    ReadAfterEnsure(es, pre, x);
    ClearUpTo(es, parts, i);
    EnsureStep(es, pre, x);
    if IsNone(Lookup(EnsuredAt(es, pre), x)) {
      EnsureWalk(es, pre);
      SetWrites(JObj(e), pre, x, JObj([]), false, EnsuredAt(es, pre));
    }
  }

  /** The pass over the last segment writes the value where `Vivify` puts it. */
  lemma PassFinal(es: seq<Entry>, parts: seq<string>, value: Json)
    requires |parts| >= 1 && NoEmptyPart(parts) && DotFree(parts)
    ensures var i := |parts| - 1;
      SetPathFrom(JObj(Ensure(es, parts[..i])), parts, i, SubPath(parts, i), value)
      == Outcome(JObj(Vivify(es, parts, value)), None)
  {
    var i := |parts| - 1;
    var pre, x := parts[..i], parts[i];
    var e := Ensure(es, pre);
    assert parts == pre + [x] && parts[..i + 1] == parts;
    assert DotFree(pre) && NoEmptyPart(pre);
    SubPathStep(parts, i);
    EnsureWalk(es, pre);
    SetWrites(JObj(e), pre, x, value, false, EnsuredAt(es, pre));
    EnsureThenAssign(es, pre, x, value);
  }

  /** On a clear path with no empty segment, the loop from pass `i` on finishes with
      `Vivify`, without error. */
  lemma {:induction false} SetPathFromVivifies(es: seq<Entry>, parts: seq<string>, i: nat, value: Json)
    requires i < |parts| && NoEmptyPart(parts) && DotFree(parts)
    requires Clear(es, parts[..|parts| - 1])
    ensures SetPathFrom(JObj(Ensure(es, parts[..i])), parts, i, SubPath(parts, i), value)
            == Outcome(JObj(Vivify(es, parts, value)), None)
    decreases |parts| - i
  {
    if i == |parts| - 1 {
      PassFinal(es, parts, value);
    } else {
      var here := SetPathFrom(JObj(Ensure(es, parts[..i])), parts, i, SubPath(parts, i), value);
      var next := SetPathFrom(JObj(Ensure(es, parts[..i + 1])), parts, i + 1, SubPath(parts, i + 1), value);
      PassNonFinal(es, parts, i, value);
      assert here == next;
      SetPathFromVivifies(es, parts, i + 1, value);
      assert next == Outcome(JObj(Vivify(es, parts, value)), None);
    }
  }

  /** `setPath` on a plain object, with no empty segment and a clear path, creates the
      missing intermediate objects and writes the value: the result is `Vivify`. */
  lemma SetPathVivifies(es: seq<Entry>, path: string, value: Json)
    requires NoEmptyPart(Split(path))
    requires Clear(es, Split(path)[..|Split(path)| - 1])
    ensures SetPathSpec(JObj(es), path, value) == Outcome(JObj(Vivify(es, Split(path), value)), None)
  {
    SetPathFromVivifies(es, Split(path), 0, value);
  }

  /** `setPath` fails when any segment of the path is empty (the writes made before that
      segment was reached stay made). */
  lemma {:induction false} SetPathFromFails(t: Json, parts: seq<string>, i: nat, sub: string, value: Json, j: nat)
    requires i <= j < |parts| && parts[j] == ""
    ensures SetPathFrom(t, parts, i, sub, value).failure.Some?
    decreases |parts| - i
  {
    if parts[i] != "" && i < |parts| - 1 {
      var sub' := if |sub| > 0 then sub + "." + parts[i] else parts[i];
      var current := Get(Some(t), sub');
      if current.Ok? && !IsNone(current.value) {
        SetPathFromFails(t, parts, i + 1, sub', value, j);
      } else if current.Ok? {
        var w := Set(Some(t), sub', JObj([]), false);
        if w.Ok? {
          SetPathFromFails(w.value.tree.value, parts, i + 1, sub', value, j);
        }
      }
    }
  }

  /** `setPath` on a path with an empty segment anywhere (`d..e`, `.d`, `d.`) ends with an
      error. */
  lemma SetPathFailsOnEmptySegment(obj: Json, path: string, value: Json, j: nat)
    requires j < |Split(path)| && Split(path)[j] == ""
    ensures SetPathSpec(obj, path, value).failure.Some?
  {
    SetPathFromFails(obj, Split(path), 0, "", value, j);
  }

  /** `Vivify` leaves the value at the end of the path. */
  lemma {:induction false} VivifyReads(es: seq<Entry>, parts: seq<string>, value: Json)
    requires |parts| >= 1 && NoEmptyPart(parts) && DotFree(parts)
    ensures Walk(Some(JObj(Vivify(es, parts, value))), parts) == Ok(Some(value))
    decreases |parts|
  {
    if |parts| > 1 {
      VivifyReads(ChildOrEmpty(es, parts[0]), parts[1..], value);
    }
  }

  /** Every segment of `ps` names a property that holds a plain object. */
  predicate ObjectsAlong(es: seq<Entry>, ps: seq<string>)
    decreases |ps|
  {
    ps == [] ||
    match Lookup(es, ps[0])
    case Some(JObj(c)) => ObjectsAlong(c, ps[1..])
    case _ => false
  }

  /** `Vivify` writes its first segment only. */
  lemma VivifyTop(es: seq<Entry>, parts: seq<string>, value: Json)
    requires |parts| >= 2
    ensures Vivify(es, parts, value)
            == Put(es, parts[0], JObj(Vivify(ChildOrEmpty(es, parts[0]), parts[1..], value)))
  {
  }

  /** `VivifySibling` where `q` leaves `parts` at the first segment. */
  lemma SiblingAtTop(es: seq<Entry>, parts: seq<string>, value: Json, q: seq<string>)
    requires |parts| >= 1 && DotFree(q) && |q| >= 1 && q[0] != parts[0]
    ensures Walk(Some(JObj(Vivify(es, parts, value))), q) == Walk(Some(JObj(es)), q)
  {
    var p := parts[0];
    var x := if |parts| == 1 then value else JObj(Vivify(ChildOrEmpty(es, p), parts[1..], value));
    if |parts| > 1 {
      VivifyTop(es, parts, value);
    }
    assert Vivify(es, parts, value) == Put(es, p, x);
    WalkPutOther(es, p, x, q);
  }

  /** `VivifySibling` one segment down: when the first segment already holds a plain object,
      walks below it are walks below that object before and after. */
  lemma SiblingBelow(es: seq<Entry>, parts: seq<string>, value: Json, q: seq<string>)
    requires |parts| >= 2 && NoEmptyPart(parts) && DotFree(q) && |q| >= 1 && q[0] == parts[0]
    requires Lookup(es, parts[0]) == Some(JObj(ChildOrEmpty(es, parts[0])))
    ensures Walk(Some(JObj(Vivify(es, parts, value))), q)
            == Walk(Some(JObj(Vivify(ChildOrEmpty(es, parts[0]), parts[1..], value))), q[1..])
    ensures Walk(Some(JObj(es)), q) == Walk(Some(JObj(ChildOrEmpty(es, parts[0]))), q[1..])
  {
    var p := parts[0];
    var c' := Vivify(ChildOrEmpty(es, p), parts[1..], value);
    VivifyTop(es, parts, value);
    assert p != "";
    WalkFirst(es, q);
    WalkFirst(Put(es, p, JObj(c')), q);
  }

  /** A path that leaves `parts` below plain objects that already exist (a sibling, or a
      property of an object on the way) reads the same after `Vivify`: sibling output paths share the
      object created for their common prefix. */
  lemma {:induction false} VivifySibling(es: seq<Entry>, parts: seq<string>, value: Json,
                                         q: seq<string>, i: nat)
    requires |parts| >= 1 && NoEmptyPart(parts) && DotFree(parts) && DotFree(q)
    requires i < |parts| && i < |q| && q[..i] == parts[..i] && q[i] != parts[i]
    requires ObjectsAlong(es, parts[..i])
    ensures Walk(Some(JObj(Vivify(es, parts, value))), q) == Walk(Some(JObj(es)), q)
    decreases i
  {
    if i == 0 {
      SiblingAtTop(es, parts, value, q);
    } else {
      SiblingStep(es, parts, value, q, i);
      VivifySibling(ChildOrEmpty(es, parts[0]), parts[1..], value, q[1..], i - 1);
    }
  }

  /** The inductive step of `VivifySibling`: both walks move one object down, and the
      smaller instance meets the lemma's requirements. */
  lemma SiblingStep(es: seq<Entry>, parts: seq<string>, value: Json, q: seq<string>, i: nat)
    requires |parts| >= 1 && NoEmptyPart(parts) && DotFree(parts) && DotFree(q)
    requires 0 < i < |parts| && i < |q| && q[..i] == parts[..i] && q[i] != parts[i]
    requires ObjectsAlong(es, parts[..i])
    ensures NoEmptyPart(parts[1..]) && DotFree(parts[1..]) && DotFree(q[1..])
    ensures q[1..][..i - 1] == parts[1..][..i - 1] && q[1..][i - 1] != parts[1..][i - 1]
    ensures ObjectsAlong(ChildOrEmpty(es, parts[0]), parts[1..][..i - 1])
    ensures Walk(Some(JObj(Vivify(es, parts, value))), q)
            == Walk(Some(JObj(Vivify(ChildOrEmpty(es, parts[0]), parts[1..], value))), q[1..])
    ensures Walk(Some(JObj(es)), q) == Walk(Some(JObj(ChildOrEmpty(es, parts[0]))), q[1..])
  {
    ObjectsAlongHead(es, parts, i);
    SharedPrefixTail(parts, q, i);
    SiblingBelow(es, parts, value, q);
    TailClean(parts);
    TailClean(q);
  }

  /** A path of existing plain objects starts with one. */
  lemma ObjectsAlongHead(es: seq<Entry>, parts: seq<string>, i: nat)
    requires 0 < i <= |parts| && ObjectsAlong(es, parts[..i])
    ensures Lookup(es, parts[0]) == Some(JObj(ChildOrEmpty(es, parts[0])))
    ensures ObjectsAlong(ChildOrEmpty(es, parts[0]), parts[1..][..i - 1])
  {
    assert parts[..i][0] == parts[0] && parts[..i][1..] == parts[1..][..i - 1];
  }
}

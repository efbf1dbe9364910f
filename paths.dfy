/** The dotted-path reader `get`/`_getPath`, `getWithDefaults`, and the strict or tolerant
    writer `set`/`_setPath`.

    JavaScript writes into the object graph in place; here a tree is a value, and a write
    returns the tree as it is after the assignment. */
module PathAccess {
  import opened JsonValues

  // ---------------------------------------------------------------- reading

  /** `obj[keyName]` for a value that is not undefined. Reading a property of null throws;
      on a value that is not a plain object the model reads undefined. */
  function Prop(v: Json, keyName: string): (r: Result<Option<Json>>)
    ensures r.Err? <==> v.JNull?
    ensures v.JObj? ==> r == Ok(Lookup(v.entries, keyName))
  {
    match v
    case JNull => Err(TypeError)
    case JObj(es) => Ok(Lookup(es, keyName))
    case _ => Ok(None)
  }

  /** `get(obj, keyName)`: an empty key name or an undefined `obj` fails; a name with a dot
      is read segment by segment. */
  function Get(obj: Option<Json>, keyName: string): (r: Result<Option<Json>>)
    ensures keyName == "" || obj.None? ==> r == Err(InvalidArgument)
    decreases if '.' in keyName then 1 else 0, 2, 0
  {
    if keyName == "" || obj.None? then Err(InvalidArgument)
    else if '.' in keyName then GetPath(obj, keyName)
    else Prop(obj.value, keyName)
  }

  /** `_getPath(root, path)`. */
  function GetPath(root: Option<Json>, path: string): (r: Result<Option<Json>>)
    ensures IsNone(root) ==> r == Ok(root)
    ensures !IsNone(root) && path != "" && '.' !in path ==> r == Prop(root.value, path)
    decreases 0, 4, 0
  {
    assert '.' !in path ==> Split(path) == [path] && [path][1..] == [];
    assert !IsNone(root) && path != "" && '.' !in path ==> Get(root, path) == Prop(root.value, path);
    Walk(root, Split(path))
  }

  /** The loop of `_getPath`: while `root` is neither null nor undefined and segments remain,
      `root = get(root, segment)`; the value reached is returned, null included. */
  function Walk(root: Option<Json>, parts: seq<string>): (r: Result<Option<Json>>)
    requires DotFree(parts)
    ensures parts == [] || IsNone(root) ==> r == Ok(root)
    ensures r.Err? ==> !IsNone(root) && parts != []
    decreases 0, 3, |parts|
  {
    if parts == [] || IsNone(root) then Ok(root)
    else
      var next :- Get(root, parts[0]);
      Walk(next, parts[1..])
  }

  /** `get(obj, keyName)` where the key name is whatever value the caller holds: a falsy one
      fails the assertion, any other value that is not a string has no `indexOf`. */
  function GetByKey(obj: Option<Json>, keyName: Json): (r: Result<Option<Json>>)
    ensures keyName.JStr? ==> r == Get(obj, keyName.s)
    ensures !keyName.JStr? ==> r.Err?
  {
    if !Truthy(Some(keyName)) || obj.None? then Err(InvalidArgument)
    else if keyName.JStr? then Get(obj, keyName.s)
    else Err(TypeError)
  }

  /** `getWithDefaults(root, key, defaultValue)`. */
  function GetWithDefaults(root: Option<Json>, key: Json, defaultValue: Json): (r: Result<Option<Json>>)
    ensures r.Err? <==> GetByKey(root, key).Err?
    ensures r.Ok? ==> r.value == if GetByKey(root, key).value.None? then Some(defaultValue) else GetByKey(root, key).value
  {
    var value :- GetByKey(root, key);
    if value.None? then Ok(Some(defaultValue)) else Ok(value)
  }

  // ---------------------------------------------------------------- facts about reading

  /** A walk along `p + q` is a walk along `p` and then along `q` from where it stopped. */
  lemma {:induction false} WalkConcat(root: Option<Json>, p: seq<string>, q: seq<string>)
    requires DotFree(p) && DotFree(q)
    ensures DotFree(p + q)
    ensures Walk(root, p + q) == (var x :- Walk(root, p); Walk(x, q))
    decreases |p|
  {
    assert DotFree(p + q) by {
      forall i | 0 <= i < |p + q| ensures '.' !in (p + q)[i] {
        if i < |p| { assert (p + q)[i] == p[i]; } else { assert (p + q)[i] == q[i - |p|]; }
      }
    }
    if p != [] && !IsNone(root) {
      assert (p + q)[0] == p[0] && (p + q)[1..] == p[1..] + q;
      match Get(root, p[0])
      case Err(_) =>
      case Ok(next) => WalkConcat(next, p[1..], q);
    } else if p == [] {
      assert p + q == q;
    }
  }

  /** Once the walk reaches null or undefined it returns that value, whatever segments
      remain, empty ones included. */
  lemma WalkStopsAtNone(root: Option<Json>, p: seq<string>, q: seq<string>, x: Option<Json>)
    requires DotFree(p) && DotFree(q)
    requires Walk(root, p) == Ok(x) && IsNone(x)
    ensures DotFree(p + q) && Walk(root, p + q) == Ok(x)
  {
    WalkConcat(root, p, q);
  }

  /** An empty segment fails exactly when the walk reaches it with a value that is neither
      null nor undefined. */
  lemma EmptySegmentFails(root: Option<Json>, p: seq<string>, q: seq<string>, x: Option<Json>)
    requires DotFree(p) && DotFree(q)
    requires Walk(root, p) == Ok(x) && !IsNone(x)
    ensures DotFree(p + [""] + q) && Walk(root, p + [""] + q) == Err(InvalidArgument)
  {
    assert DotFree([""] + q) by {
      forall i | 0 <= i < |[""] + q| ensures '.' !in ([""] + q)[i] {
        if i > 0 { assert ([""] + q)[i] == q[i - 1]; }
      }
    }
    WalkConcat(root, p, [""] + q);
    assert p + [""] + q == p + ([""] + q);
  }

  /** Reading a path from a value that is neither null nor undefined is the walk over its
      segments. */
  lemma GetIsWalk(obj: Option<Json>, path: string)
    requires !IsNone(obj)
    ensures Get(obj, path) == Walk(obj, Split(path))
  {
    if '.' !in path {
      assert Split(path) == [path];
      if path != "" {
        match Get(obj, path)
        case Err(_) =>
        case Ok(next) => assert Walk(next, []) == Ok(next);
      }
    }
  }

  /** A walk fails only as `get` does: a failed assertion or a read of a property of null. */
  lemma {:induction false} WalkErrors(root: Option<Json>, parts: seq<string>)
    requires DotFree(parts)
    ensures Walk(root, parts).Err? ==> Walk(root, parts).error in {InvalidArgument, TypeError}
    decreases |parts|
  {
    if parts != [] && !IsNone(root) {
      match Get(root, parts[0])
      case Err(_) =>
      case Ok(next) => WalkErrors(next, parts[1..]);
    }
  }

  /** Reading fails only with a failed assertion or a read of a property of null. */
  lemma ReadErrors(obj: Option<Json>, keyName: Json)
    ensures GetByKey(obj, keyName).Err? ==> GetByKey(obj, keyName).error in {InvalidArgument, TypeError}
  {
    if keyName.JStr? && keyName.s != "" && obj.Some? && '.' in keyName.s {
      assert Get(obj, keyName.s) == Walk(obj, Split(keyName.s));
      WalkErrors(obj, Split(keyName.s));
    }
  }

  /** `get` on a dotted path reads the first segment and then the rest of the path from
      there; it yields null or undefined as soon as that is what the first segment holds. */
  lemma GetDotted(o: Json, a: string, b: string)
    requires o != JNull && a != "" && '.' !in a
    ensures Get(Some(o), a + "." + b) ==
      (var x :- Get(Some(o), a); if IsNone(x) then Ok(x) else Get(x, b))
  {
    var path := a + "." + b;
    assert path[|a|] == '.';
    assert '.' in path;
    assert Get(Some(o), path) == Walk(Some(o), Split(path));
    SplitConcat(a, b);
    assert Split(path) == [a] + Split(b);
    assert ([a] + Split(b))[1..] == Split(b);
    var x := Prop(o, a).value;
    assert Get(Some(o), a) == Ok(x);
    assert Walk(Some(o), [a] + Split(b)) == Walk(x, Split(b));
    if !IsNone(x) { GetIsWalk(x, b); }
  }

  /** A walk from a plain object starts with the property named by the first segment. */
  lemma WalkFirst(es: seq<Entry>, q: seq<string>)
    requires DotFree(q) && |q| >= 1 && q[0] != ""
    ensures Walk(Some(JObj(es)), q) == Walk(Lookup(es, q[0]), q[1..])
  {
    assert '.' !in q[0];
    assert Get(Some(JObj(es)), q[0]) == Ok(Lookup(es, q[0]));
  }

  /** A walk whose first segment is not `k` does not see a write to `k`. */
  lemma WalkPutOther(es: seq<Entry>, k: string, x: Json, q: seq<string>)
    requires DotFree(q) && |q| >= 1 && q[0] != k
    ensures Walk(Some(JObj(Put(es, k, x))), q) == Walk(Some(JObj(es)), q)
  {
    if q[0] != "" {
      WalkFirst(es, q);
      WalkFirst(Put(es, k, x), q);
    }
  }

  /** One more segment after a walk that reached a plain object reads its property. */
  lemma WalkLeaf(root: Option<Json>, ps: seq<string>, x: string, leafParent: seq<Entry>)
    requires DotFree(ps) && x != "" && '.' !in x && Walk(root, ps) == Ok(Some(JObj(leafParent)))
    ensures DotFree(ps + [x]) && Walk(root, ps + [x]) == Ok(Lookup(leafParent, x))
  {
    assert DotFree([x]);
    WalkConcat(root, ps, [x]);
    WalkFirst(leafParent, [x]);
  }

  // ---------------------------------------------------------------- writing

  /** What a call of `set` leaves behind: the tree rooted at `obj` after the write, and the
      value `set` returns (`None` when a tolerant write found no parent). */
  datatype Written = Written(tree: Option<Json>, returned: Option<Json>)

  /** `obj[keyName] = value` on a truthy value. A plain object gets the property; on a
      primitive the assignment is silently dropped (the library runs in sloppy mode), and
      arrays and functions are treated the same way (see README). */
  function AssignKey(o: Json, keyName: string, value: Json): (r: Json)
    ensures r.JObj? <==> o.JObj?
    ensures !o.JObj? ==> r == o
    ensures o.JObj? ==> Lookup(r.entries, keyName) == Some(value)
    ensures o.JObj? ==> forall k :: k != keyName ==> Lookup(r.entries, k) == Lookup(o.entries, k)
  {
    if o.JObj? then JObj(Put(o.entries, keyName, value)) else o
  }

  /** The tree `t` after `obj[keyName] = value` on the object reached from `t` by the segments
      `parent`. Where that object does not exist the tree is unchanged (`set` never gets
      there: it checks the parent first). */
  function AssignAt(t: Json, parent: seq<string>, keyName: string, value: Json): (r: Json)
    ensures r.JObj? <==> t.JObj?
    decreases |parent|
  {
    if parent == [] then AssignKey(t, keyName, value)
    else match t
      case JObj(es) =>
        (match Lookup(es, parent[0])
         case Some(child) => JObj(Put(es, parent[0], AssignAt(child, parent[1..], keyName, value)))
         case None => t)
      case _ => t
  }

  /** `set(obj, keyName, value, tolerant)`. */
  function Set(obj: Option<Json>, keyName: string, value: Json, tolerant: bool): (r: Result<Written>)
    ensures r.Ok? ==> (r.value.tree.Some? <==> obj.Some?)
    ensures r.Ok? && obj.Some? ==> (r.value.tree.value.JObj? <==> obj.value.JObj?)
  {
    if keyName == "" then Err(InvalidArgument)
    else if '.' in keyName then SetDotted(obj, keyName, value, tolerant)
    else if !Truthy(obj) then Err(InvalidArgument)
    else Ok(Written(Some(AssignKey(obj.value, keyName, value)), Some(value)))
  }

  /** `_setPath(root, path, value, tolerant)`: the leaf is the segment after the last dot,
      the parent is read by `_getPath` on the path before it, which walks exactly the
      remaining segments (`SplitJoin`). */
  function SetDotted(root: Option<Json>, path: string, value: Json, tolerant: bool): (r: Result<Written>)
    requires '.' in path
    ensures r.Ok? ==> (r.value.tree.Some? <==> root.Some?)
    ensures r.Ok? && root.Some? ==> (r.value.tree.value.JObj? <==> root.value.JObj?)
  {
    var parts := Split(path);
    var keyName := parts[|parts| - 1];
    var parent := parts[..|parts| - 1];
    if keyName == "" then Err(MalformedPath)
    else
      var target :- Walk(root, parent);
      if !Truthy(target) then
        if tolerant then Ok(Written(root, None)) else Err(TargetNotFound)
      else
        Ok(Written(Some(AssignAt(root.value, parent, keyName, value)), Some(value)))
  }

  // ---------------------------------------------------------------- facts about writing

  /** The segments of a path written as `Join(parent + [leaf])`. */
  lemma SplitPath(parent: seq<string>, leaf: string)
    requires |parent| >= 1 && DotFree(parent + [leaf])
    ensures '.' in Join(parent + [leaf])
    ensures Split(Join(parent + [leaf])) == parent + [leaf]
  {
    JoinHasDot(parent + [leaf]);
    SplitJoin(parent + [leaf]);
  }

  /** The non-dotted `set` needs a truthy object, writes exactly the one property and
      returns the value written. */
  lemma SetOwnProperty(obj: Option<Json>, keyName: string, value: Json, tolerant: bool)
    requires keyName != "" && '.' !in keyName
    ensures Set(obj, keyName, value, tolerant).Ok? <==> Truthy(obj)
    ensures Truthy(obj) ==> Set(obj, keyName, value, tolerant).value.returned == Some(value)
    ensures obj.Some? && obj.value.JObj? ==>
      Set(obj, keyName, value, tolerant).value.tree == Some(JObj(Put(obj.value.entries, keyName, value)))
  {
  }

  /** A dotted path whose last segment is empty fails before anything is read. */
  lemma SetEmptyLeaf(obj: Option<Json>, path: string, value: Json, tolerant: bool)
    ensures Set(obj, path + ".", value, tolerant) == Err(MalformedPath)
  {
    var p := path + ".";
    assert p[|path|] == '.';
    assert p == path + "." + "";
    SplitConcat(path, "");
    assert Split(p) == Split(path) + [""];
  }

  /** A parent that is falsy (missing, null, false, 0 or "") makes a tolerant write return
      undefined and change nothing, and a strict write fail. */
  lemma SetMissingParent(obj: Option<Json>, parent: seq<string>, leaf: string, value: Json, tolerant: bool)
    requires |parent| >= 1 && DotFree(parent + [leaf]) && leaf != ""
    requires DotFree(parent) && Walk(obj, parent).Ok? && !Truthy(Walk(obj, parent).value)
    ensures Set(obj, Join(parent + [leaf]), value, tolerant) ==
      if tolerant then Ok(Written(obj, None)) else Err(TargetNotFound)
  {
    SplitPath(parent, leaf);
    assert (parent + [leaf])[..|parent|] == parent;
  }

  /** Walking a tree after `AssignAt` reaches the written object with the leaf set and the
      leaf holding the value. */
  lemma {:induction false} AssignAtReads(t: Json, parent: seq<string>, keyName: string, value: Json, es: seq<Entry>)
    requires DotFree(parent) && Walk(Some(t), parent) == Ok(Some(JObj(es)))
    ensures Walk(Some(AssignAt(t, parent, keyName, value)), parent) == Ok(Some(JObj(Put(es, keyName, value))))
    decreases |parent|
  {
    if parent != [] {
      match t
      case JObj(top) =>
        AssignAtStep(top, parent, keyName, value, es);
        var c := Lookup(top, parent[0]).value;
        AssignAtReads(c, parent[1..], keyName, value, es);
        var c' := AssignAt(c, parent[1..], keyName, value);
        WalkFirst(Put(top, parent[0], c'), parent);
      case _ =>
    }
  }

  /** Walking any path that leaves `parent + [keyName]` before its end reads the same value
      before and after `AssignAt`: no other property of the tree changes. */
  lemma {:induction false} AssignAtFrame(t: Json, parent: seq<string>, keyName: string, value: Json,
                                         es: seq<Entry>, q: seq<string>, i: nat)
    requires DotFree(parent) && Walk(Some(t), parent) == Ok(Some(JObj(es)))
    requires DotFree(q) && i < |q| && i <= |parent|
    requires q[..i] == parent[..i] && q[i] != (parent + [keyName])[i]
    ensures Walk(Some(AssignAt(t, parent, keyName, value)), q) == Walk(Some(t), q)
    decreases |parent|
  {
    match t
    case JObj(top) =>
      if parent == [] {
        WalkPutOther(top, keyName, value, q);
      } else {
        AssignAtStep(top, parent, keyName, value, es);
        var c := Lookup(top, parent[0]).value;
        var c' := AssignAt(c, parent[1..], keyName, value);
        if i == 0 {
          SnocHead(parent, keyName);
          WalkPutOther(top, parent[0], c', q);
        } else {
          FrameTail(parent, keyName, q, i);
          AssignAtFrame(c, parent[1..], keyName, value, es, q[1..], i - 1);
          WalkSameHead(top, parent[0], c', q);
        }
      }
    case _ =>
      assert false;
  }

  /** One level of `AssignAt` on a parent path that reads down to a plain object. */
  lemma AssignAtStep(top: seq<Entry>, parent: seq<string>, keyName: string, value: Json, es: seq<Entry>)
    requires DotFree(parent) && parent != [] && Walk(Some(JObj(top)), parent) == Ok(Some(JObj(es)))
    ensures parent[0] != "" && Lookup(top, parent[0]).Some?
    ensures DotFree(parent[1..]) && Walk(Lookup(top, parent[0]), parent[1..]) == Ok(Some(JObj(es)))
    ensures AssignAt(JObj(top), parent, keyName, value)
            == JObj(Put(top, parent[0], AssignAt(Lookup(top, parent[0]).value, parent[1..], keyName, value)))
  {
    WalkParentStep(top, parent, es);
  }

  /** A path that leaves `parent + [keyName]` at position `i > 0` shares the first segment
      and leaves `parent[1..] + [keyName]` at position `i - 1`. */
  lemma FrameTail(parent: seq<string>, keyName: string, q: seq<string>, i: nat)
    requires DotFree(q) && 0 < i < |q| && i <= |parent|
    requires q[..i] == parent[..i] && q[i] != (parent + [keyName])[i]
    ensures q[0] == parent[0] && DotFree(q[1..]) && i - 1 < |q[1..]| && i - 1 <= |parent[1..]|
    ensures q[1..][..i - 1] == parent[1..][..i - 1] && q[1..][i - 1] != (parent[1..] + [keyName])[i - 1]
  {
    SharedPrefixTail(parent, q, i);
    SnocTail(parent, keyName, i);
    TailClean(q);
  }

  /** Reading a non-empty path of a plain object down to a plain object goes through an
      existing property named by the first segment. */
  lemma WalkParentStep(top: seq<Entry>, parent: seq<string>, es: seq<Entry>)
    requires DotFree(parent) && parent != [] && Walk(Some(JObj(top)), parent) == Ok(Some(JObj(es)))
    ensures parent[0] != "" && Lookup(top, parent[0]).Some?
    ensures DotFree(parent[1..]) && Walk(Lookup(top, parent[0]), parent[1..]) == Ok(Some(JObj(es)))
  {
    TailClean(parent);
    WalkFirst(top, parent);
  }

  /** Replacing the child a walk enters by one that reads the same along the rest of the
      walk leaves the walk unchanged. */
  lemma WalkSameHead(top: seq<Entry>, k: string, c': Json, q: seq<string>)
    requires DotFree(q) && |q| >= 1 && q[0] == k && k != ""
    requires DotFree(q[1..]) && Walk(Some(c'), q[1..]) == Walk(Lookup(top, k), q[1..])
    ensures Walk(Some(JObj(Put(top, k, c'))), q) == Walk(Some(JObj(top)), q)
  {
    WalkFirst(Put(top, k, c'), q);
    WalkFirst(top, q);
  }

  lemma SnocHead<T>(p: seq<T>, x: T)
    requires |p| >= 1
    ensures (p + [x])[0] == p[0]
  {
  }

  lemma SnocTail<T>(p: seq<T>, x: T, i: nat)
    requires 0 < i <= |p|
    ensures (p[1..] + [x])[i - 1] == (p + [x])[i]
  {
  }

  /** A write whose parent is a plain object: `set` returns the value, exactly the leaf of
      that parent is assigned, the leaf then reads back the value, and every path that
      leaves the written one reads as before. */
  lemma SetWrites(t: Json, parent: seq<string>, leaf: string, value: Json, tolerant: bool, es: seq<Entry>)
    requires DotFree(parent + [leaf]) && leaf != ""
    requires DotFree(parent) && Walk(Some(t), parent) == Ok(Some(JObj(es)))
    ensures var path := Join(parent + [leaf]);
      var r := Set(Some(t), path, value, tolerant);
      && r == Ok(Written(Some(AssignAt(t, parent, leaf, value)), Some(value)))
      && Walk(r.value.tree, parent) == Ok(Some(JObj(Put(es, leaf, value))))
      && Walk(r.value.tree, parent + [leaf]) == Ok(Some(value))
  {
    var t' := AssignAt(t, parent, leaf, value);
    SetAssigns(t, parent, leaf, value, tolerant, es);
    AssignAtReads(t, parent, leaf, value, es);
    assert '.' !in leaf by { assert (parent + [leaf])[|parent|] == leaf; }
    WalkLeaf(Some(t'), parent, leaf, Put(es, leaf, value));
  }

  /** The write `SetWrites` describes assigns the leaf of the parent and returns the value. */
  lemma SetAssigns(t: Json, parent: seq<string>, leaf: string, value: Json, tolerant: bool, es: seq<Entry>)
    requires DotFree(parent + [leaf]) && leaf != ""
    requires DotFree(parent) && Walk(Some(t), parent) == Ok(Some(JObj(es)))
    ensures Set(Some(t), Join(parent + [leaf]), value, tolerant)
            == Ok(Written(Some(AssignAt(t, parent, leaf, value)), Some(value)))
  {
    if parent == [] {
      assert Join(parent + [leaf]) == leaf;
      assert '.' !in leaf by { assert (parent + [leaf])[0] == leaf; }
    } else {
      SplitPath(parent, leaf);
      assert (parent + [leaf])[..|parent|] == parent;
    }
  }
}

/** JavaScript values as the mapper sees them, the helpers `isNone`, `typeOf`/`isObject`
    and `keys`, and the dotted-path splitting that every path operation starts with. */
module JsonValues {

  /** `None` stands for JavaScript's `undefined`. */
  datatype Option<+T> = None | Some(value: T)

  /** The failures the library raises. Every one of them is a thrown `Error` in JavaScript;
      the tag records which check raised it. */
  datatype Error =
    | InvalidArgument   // a failed `assert` in get, set, setPath or map
    | InvalidFieldRule  // the `key` or `default` assertion of getFromObject
    | TargetNotFound    // _setPath: the parent object could not be found
    | MalformedPath     // _setPath: empty leaf segment
    | TypeError         // property read on null, a call of a non-function, a non-string key

  datatype Result<+T> = Ok(value: T) | Err(error: Error) {
    predicate IsFailure() { Err? }
    function PropagateFailure<U>(): Result<U> requires Err? { Err(error) }
    function Extract(): T requires Ok? { value }
  }

  /** A JavaScript value. A plain object is the list of its own properties in insertion
      order; a function value is a handle whose behaviour is supplied separately. */
  datatype Json =
    | JNull
    | JBool(b: bool)
    | JNum(n: int)
    | JStr(s: string)
    | JArr(items: seq<Json>)
    | JObj(entries: seq<Entry>)
    | JFunc(id: nat)

  datatype Entry = Entry(name: string, val: Json)

  /** What a function value does when called with one argument; `None` is a return of `undefined`. */
  type Callbacks = (nat, Json) -> Option<Json>

  /** `isNone`: null or undefined. */
  predicate IsNone(v: Option<Json>)
    ensures IsNone(v) ==> !Truthy(v)
  {
    v.None? || v.value.JNull?
  }

  /** JavaScript truthiness (`!!v`); NaN is not modelled. */
  predicate Truthy(v: Option<Json>)
    ensures Truthy(v) ==> v.Some? && !v.value.JNull?
    ensures v.Some? && (v.value.JObj? || v.value.JArr? || v.value.JFunc?) ==> Truthy(v)
  {
    match v
    case None => false
    case Some(JNull) => false
    case Some(JBool(b)) => b
    case Some(JNum(n)) => n != 0
    case Some(JStr(s)) => s != ""
    case Some(_) => true
  }

  /** The tags `typeOf` returns for the values of this model. */
  datatype Kind = Undefined | Null | Boolean | Number | String | Function | Array | Object

  function TypeOf(v: Option<Json>): (k: Kind)
    ensures k == Undefined <==> v.None?
    ensures k == Object <==> v.Some? && v.value.JObj?
    ensures k == Array <==> v.Some? && v.value.JArr?
  {
    match v
    case None => Undefined
    case Some(JNull) => Null
    case Some(JBool(_)) => Boolean
    case Some(JNum(_)) => Number
    case Some(JStr(_)) => String
    case Some(JFunc(_)) => Function
    case Some(JArr(_)) => Array
    case Some(JObj(_)) => Object
  }

  /** `isObject`: a plain object, not an array, a function or null. */
  predicate IsObject(v: Option<Json>)
    ensures IsObject(v) <==> v.Some? && v.value.JObj?
  {
    TypeOf(v) == Object
  }

  // ---------------------------------------------------------------- properties of an object

  function Names(es: seq<Entry>): (ns: seq<string>)
    ensures |ns| == |es| && forall i :: 0 <= i < |es| ==> ns[i] == es[i].name
  {
    seq(|es|, i requires 0 <= i < |es| => es[i].name)
  }

  predicate UniqueNames(es: seq<Entry>) {
    forall i, j :: 0 <= i < j < |es| ==> es[i].name != es[j].name
  }

  /** The position of the property named `k`: the first entry with that name. */
  function Find(es: seq<Entry>, k: string): (r: Option<nat>)
    ensures r.Some? ==> r.value < |es| && es[r.value].name == k
    ensures r.Some? ==> forall j :: 0 <= j < r.value ==> es[j].name != k
    ensures r.None? <==> forall j :: 0 <= j < |es| ==> es[j].name != k
  {
    if es == [] then None
    else if es[0].name == k then Some(0)
    else match Find(es[1..], k)
      case None => None
      case Some(j) => Some(j + 1)
  }

  /** `obj[k]` on a plain object. */
  function Lookup(es: seq<Entry>, k: string): (r: Option<Json>)
    ensures r.None? <==> forall j :: 0 <= j < |es| ==> es[j].name != k
    ensures r.Some? ==> Entry(k, r.value) in es
  {
    match Find(es, k)
    case None => None
    case Some(j) => Some(es[j].val)
  }

  /** Two entry lists with the same names in the same order find every name at the same place. */
  lemma {:induction false} FindByNames(a: seq<Entry>, b: seq<Entry>, k: string)
    requires Names(a) == Names(b)
    ensures Find(a, k) == Find(b, k)
  {
    if a != [] {
      assert a[0].name == Names(a)[0] == Names(b)[0] == b[0].name;
      assert Names(a[1..]) == Names(a)[1..];
      assert Names(b[1..]) == Names(b)[1..];
      FindByNames(a[1..], b[1..], k);
    }
  }

  /** `obj[k] = v` on a plain object: an existing property keeps its place, a new one goes last. */
  function Put(es: seq<Entry>, k: string, v: Json): (r: seq<Entry>)
    ensures Lookup(r, k) == Some(v)
    ensures forall k' :: k' != k ==> Lookup(r, k') == Lookup(es, k')
    ensures Names(r) == if Find(es, k).Some? then Names(es) else Names(es) + [k]
  {
    match Find(es, k)
    case Some(j) =>
      var r := es[j := Entry(k, v)];
      assert Names(r) == Names(es);
      forall k' ensures Find(r, k') == Find(es, k') { FindByNames(r, es, k'); }
      r
    case None =>
      var r := es + [Entry(k, v)];
      assert Names(r) == Names(es) + [k];
      FindAppend(es, Entry(k, v), k);
      forall k' | k' != k ensures Lookup(r, k') == Lookup(es, k') {
        FindAppend(es, Entry(k, v), k');
      }
      r
  }

  lemma {:induction false} FindAppend(es: seq<Entry>, e: Entry, k: string)
    ensures Find(es + [e], k) == if Find(es, k).Some? || e.name != k then Find(es, k) else Some(|es|)
  {
    if es != [] {
      assert (es + [e])[1..] == es[1..] + [e];
      FindAppend(es[1..], e, k);
    }
  }

  /** Writing a property back with the value it already has changes nothing. */
  lemma PutSame(es: seq<Entry>, k: string)
    requires Lookup(es, k).Some?
    ensures Put(es, k, Lookup(es, k).value) == es
  {
  }

  /** A second write to the same property replaces the first, in place. */
  lemma {:induction false} PutPut(es: seq<Entry>, k: string, v: Json, w: Json)
    ensures Put(Put(es, k, v), k, w) == Put(es, k, w)
  {
    var r := Put(es, k, v);
    match Find(es, k)
    case Some(j) =>
      FindByNames(r, es, k);
    case None =>
      FindAppend(es, Entry(k, v), k);
  }

  /** Properties written to different names do not interfere, whatever the order. */
  lemma PutCommutes(es: seq<Entry>, k1: string, v1: Json, k2: string, v2: Json)
    requires k1 != k2 && Find(es, k1).Some? && Find(es, k2).Some?
    ensures Put(Put(es, k1, v1), k2, v2) == Put(Put(es, k2, v2), k1, v1)
  {
    FindByNames(Put(es, k1, v1), es, k2);
    FindByNames(Put(es, k2, v2), es, k1);
  }

  /** A plain object built by `Put` never holds two properties with one name. */
  lemma PutUnique(es: seq<Entry>, k: string, v: Json)
    requires UniqueNames(es)
    ensures UniqueNames(Put(es, k, v))
  {
    var r := Put(es, k, v);
    assert forall i :: 0 <= i < |r| ==> r[i].name == Names(r)[i];
    assert forall i :: 0 <= i < |es| ==> es[i].name == Names(es)[i];
  }

  /** `keys(obj)`: the names of the object's own properties, in order. */
  method Keys(es: seq<Entry>) returns (ret: seq<string>)
    ensures ret == Names(es)
  {
    ret := [];
    var i := 0;
    while i < |es|
      invariant 0 <= i <= |es|
      invariant ret == Names(es[..i])
    {
      ret := ret + [es[i].name];
      i := i + 1;
      assert es[..i] == es[..i - 1] + [es[i - 1]];
    }
    assert es[..i] == es;
  }

  // ---------------------------------------------------------------- dotted paths

  predicate DotFree(parts: seq<string>) {
    forall i :: 0 <= i < |parts| ==> '.' !in parts[i]
  }

  predicate NoEmptyPart(parts: seq<string>) {
    forall i :: 0 <= i < |parts| ==> parts[i] != ""
  }

  /** `path.split('.')`: at least one segment, none of them holding a dot. */
  function Split(s: string): (parts: seq<string>)
    ensures |parts| >= 1 && DotFree(parts)
    ensures '.' !in s ==> parts == [s]
  {
    if s == [] then [""]
    else
      var rest := Split(s[1..]);
      assert '.' !in s ==> rest == [s[1..]] && s == [s[0]] + s[1..];
      if s[0] == '.' then [""] + rest
      else [[s[0]] + rest[0]] + rest[1..]
  }

  /** `parts.join('.')`. */
  function Join(parts: seq<string>): (s: string)
    requires |parts| >= 1
  {
    if |parts| == 1 then parts[0] else parts[0] + "." + Join(parts[1..])
  }

  /** Gluing a character onto the first segment glues it onto the joined path. */
  lemma JoinExtendHead(c: char, x: string, r: seq<string>)
    ensures Join([[c] + x] + r) == [c] + Join([x] + r)
  {
    if r != [] {
      assert ([[c] + x] + r)[1..] == r && ([x] + r)[1..] == r;
      assert ([c] + x) + ("." + Join(r)) == [c] + (x + ("." + Join(r)));
    }
  }

  /** Joining the segments of a split gives the path back. */
  lemma {:induction false} JoinSplit(s: string)
    ensures Join(Split(s)) == s
  {
    if s != [] {
      var c, t := s[0], s[1..];
      assert s == [c] + t;
      SplitCons(c, t);
      JoinSplit(t);
      if c == '.' {
        assert ([""] + Split(t))[1..] == Split(t);
      } else {
        var rest := Split(t);
        assert rest == [rest[0]] + rest[1..];
        JoinExtendHead(c, rest[0], rest[1..]);
      }
    }
  }

  /** One step of `Split`, for a string given as its first character and the rest. */
  lemma SplitCons(c: char, t: string)
    ensures Split([c] + t) == if c == '.' then [""] + Split(t) else [[c] + Split(t)[0]] + Split(t)[1..]
  {
    assert ([c] + t)[1..] == t;
  }

  /** Splitting at a dot splits each side on its own. */
  lemma {:induction false} SplitConcat(a: string, b: string)
    ensures Split(a + "." + b) == Split(a) + Split(b)
  {
    if a == [] {
      assert a + "." + b == ['.'] + b;
      SplitCons('.', b);
    } else {
      var c, a' := a[0], a[1..];
      var t := a' + "." + b;
      assert a == [c] + a';
      assert a + "." + b == [c] + t;
      SplitConcat(a', b);
      SplitConcatStep(c, a', b);
    }
  }

  /** The inductive step of `SplitConcat`: one more leading character. */
  lemma SplitConcatStep(c: char, a: string, b: string)
    requires Split(a + "." + b) == Split(a) + Split(b)
    ensures Split([c] + (a + "." + b)) == Split([c] + a) + Split(b)
  {
    if c == '.' {
      SplitConcatDot(a, b);
    } else {
      SplitConcatPlain(c, a, b);
    }
  }

  lemma SplitConcatDot(a: string, b: string)
    requires Split(a + "." + b) == Split(a) + Split(b)
    ensures Split(['.'] + (a + "." + b)) == Split(['.'] + a) + Split(b)
  {
    SplitCons('.', a + "." + b);
    SplitCons('.', a);
    ConsAssoc("", Split(a), Split(b));
  }

  lemma SplitConcatPlain(c: char, a: string, b: string)
    requires c != '.' && Split(a + "." + b) == Split(a) + Split(b)
    ensures Split([c] + (a + "." + b)) == Split([c] + a) + Split(b)
  {
    SplitCons(c, a + "." + b);
    SplitCons(c, a);
    ExtendHeadConcat(c, Split(a), Split(b));
  }

  /** Gluing a character onto the first segment commutes with appending more segments. */
  lemma ExtendHeadConcat(c: char, ra: seq<string>, rb: seq<string>)
    requires |ra| >= 1
    ensures [[c] + (ra + rb)[0]] + (ra + rb)[1..] == ([[c] + ra[0]] + ra[1..]) + rb
  {
    assert (ra + rb)[0] == ra[0];
    HeadTail([c] + ra[0], ra, rb);
  }

  /** Two sequences that agree on their first `i > 0` elements agree at the head and, after it,
      on the next `i - 1`. */
  lemma SharedPrefixTail<T>(p: seq<T>, q: seq<T>, i: nat)
    requires 0 < i <= |p| && i <= |q| && q[..i] == p[..i]
    ensures q[0] == p[0] && q[1..][..i - 1] == p[1..][..i - 1]
  {
    assert q[..i][0] == p[..i][0];
    assert q[1..][..i - 1] == q[..i][1..] && p[1..][..i - 1] == p[..i][1..];
  }

  /** The segments after the first keep the properties of all of them. */
  lemma TailClean(parts: seq<string>)
    requires |parts| >= 1
    ensures NoEmptyPart(parts) ==> NoEmptyPart(parts[1..])
    ensures DotFree(parts) ==> DotFree(parts[1..])
  {
    if NoEmptyPart(parts) {
      forall k | 0 <= k < |parts| - 1 ensures parts[1..][k] != "" { assert parts[1..][k] == parts[k + 1]; }
    }
    if DotFree(parts) {
      forall k | 0 <= k < |parts| - 1 ensures '.' !in parts[1..][k] { assert parts[1..][k] == parts[k + 1]; }
    }
  }

  lemma ConsAssoc<T>(x: T, p: seq<T>, q: seq<T>)
    ensures ([x] + p) + q == [x] + (p + q)
  {
  }

  lemma HeadTail<T>(x: T, ra: seq<T>, rb: seq<T>)
    requires |ra| >= 1
    ensures [x] + (ra + rb)[1..] == ([x] + ra[1..]) + rb
  {
    assert (ra + rb)[1..] == ra[1..] + rb;
  }

  /** Splitting a join of dot-free segments gives the segments back. */
  lemma {:induction false} SplitJoin(parts: seq<string>)
    requires |parts| >= 1 && DotFree(parts)
    ensures Split(Join(parts)) == parts
  {
    if |parts| > 1 {
      SplitJoin(parts[1..]);
      SplitConcat(parts[0], Join(parts[1..]));
      assert parts == [parts[0]] + parts[1..];
    }
  }

  /** Appending a segment to a joined path. */
  lemma {:induction false} JoinSnoc(parts: seq<string>, x: string)
    requires |parts| >= 1
    ensures Join(parts + [x]) == Join(parts) + "." + x
  {
    if |parts| > 1 {
      assert (parts + [x])[1..] == parts[1..] + [x];
      JoinSnoc(parts[1..], x);
    }
  }

  /** A path with at least two segments holds a dot. */
  lemma {:induction false} JoinHasDot(parts: seq<string>)
    requires |parts| >= 2
    ensures '.' in Join(parts)
  {
    assert Join(parts)[|parts[0]|] == '.';
  }
}

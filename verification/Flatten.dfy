/** Flattening nested JSON-like data to dotted keys, and looking values up by dotted path. */
module Flatten {
  import opened Optional
  import opened Text

  datatype Value = Scalar(n: int) | Obj(fields: map<string, Value>) | Arr(elems: seq<Value>)

  const DOT: char := '.'

  // ---------------------------------------------------------------- path lookup

  datatype Resolved = Found(value: Value, multi: bool) | NotFound

  datatype LookupError = NilData | EmptyPath | PathNotFound

  datatype Lookup = Ok(value: Value, multi: bool) | Err(error: LookupError)

  /** resolvePath: objects are entered by key, arrays are fanned out over. */
  function Resolve(v: Value, parts: seq<string>): Resolved
    decreases v, 1
  {
    if parts == [] then Found(v, v.Arr?)
    else match v
      case Obj(fields) => if parts[0] in fields then Resolve(fields[parts[0]], parts[1..]) else NotFound
      case Arr(elems) =>
        var results := FanOut(elems, parts);
        if results == [] then NotFound else Found(Arr(results), true)
      case Scalar(_) => NotFound
  }

  function FanOut(elems: seq<Value>, parts: seq<string>): seq<Value>
    decreases elems, 0
  {
    if elems == [] then []
    else FanOut(elems[..|elems| - 1], parts) + Contribution(Resolve(elems[|elems| - 1], parts))
  }

  /** What one element adds: nothing, its values when it fanned out itself, or its value. */
  function Contribution(r: Resolved): seq<Value> {
    match r
    case NotFound => []
    case Found(v, multi) => if !multi then [v] else if v.Arr? then v.elems else []
  }

  method ResolvePath(v: Value, parts: seq<string>) returns (r: Resolved)
    ensures r == Resolve(v, parts)
    decreases v
  {
    if |parts| == 0 {
      return Found(v, v.Arr?);
    }
    match v {
      case Obj(fields) =>
        if parts[0] !in fields {
          return NotFound;
        }
        r := ResolvePath(fields[parts[0]], parts[1..]);
      case Arr(elems) =>
        var results := [];
        for i := 0 to |elems|
          invariant results == FanOut(elems[..i], parts)
        {
          assert elems[..i + 1][..i] == elems[..i];
          var one := ResolvePath(elems[i], parts);
          if one.Found? {
            if one.multi {
              if one.value.Arr? {
                results := results + one.value.elems;
              }
            } else {
              results := results + [one.value];
            }
          }
        }
        assert elems[..|elems|] == elems;
        if |results| == 0 {
          return NotFound;
        }
        return Found(Arr(results), true);
      case Scalar(_) =>
        return NotFound;
    }
  }

  function GetByPath(data: Option<Value>, path: string): Lookup {
    if data.None? then Err(NilData)
    else if path == "" then Err(EmptyPath)
    else match Resolve(data.value, Split(path, DOT))
      case NotFound => Err(PathNotFound)
      case Found(v, multi) => Ok(v, multi)
  }

  method GetValueByPath(data: Option<Value>, path: string) returns (r: Lookup)
    ensures r == GetByPath(data, path)
  {
    if data.None? {
      return Err(NilData);
    }
    if path == "" {
      return Err(EmptyPath);
    }
    var parts := Split(path, DOT);
    var resolved := ResolvePath(data.value, parts);
    match resolved {
      case NotFound => return Err(PathNotFound);
      case Found(v, multi) => return Ok(v, multi);
    }
  }

  /** Which error a lookup gives: for no data, for an empty path, and for a path that leads nowhere. */
  lemma LookupErrors(data: Option<Value>, path: string)
    ensures GetByPath(data, path) == Err(NilData) <==> data.None?
    ensures GetByPath(data, path) == Err(EmptyPath) <==> data.Some? && path == ""
    ensures GetByPath(data, path) == Err(PathNotFound) <==>
      && data.Some? && path != ""
      && Reached(data.value, Split(path, DOT)) == [] && !EndsOnArray(data.value, Split(path, DOT))
  {
    if data.Some? {
      ResolveReturnsReached(data.value, Split(path, DOT));
    }
  }

  /** What it returns otherwise: all the values reached, as a list if the path meets an array. */
  lemma LookupReturnsReached(data: Value, path: string)
    ensures
      var r, parts := GetByPath(Some(data), path), Split(path, DOT);
      r.Ok? ==>
        && r.multi == MeetsArray(data, parts)
        && if r.multi then r.value == Arr(Reached(data, parts)) else Reached(data, parts) == [r.value]
  {
    ResolveReturnsReached(data, Split(path, DOT));
  }

  // ------------------------------------------- what a lookup through arrays means

  /** All values a path reaches when arrays are transparent, in document order. */
  function Reached(v: Value, parts: seq<string>): seq<Value>
    decreases v, 1
  {
    if parts == [] then (if v.Arr? then v.elems else [v])
    else match v
      case Obj(fields) => if parts[0] in fields then Reached(fields[parts[0]], parts[1..]) else []
      case Arr(elems) => ReachedFrom(elems, parts)
      case Scalar(_) => []
  }

  function ReachedFrom(elems: seq<Value>, parts: seq<string>): seq<Value>
    decreases elems, 0
  {
    if elems == [] then []
    else ReachedFrom(elems[..|elems| - 1], parts) + Reached(elems[|elems| - 1], parts)
  }

  /** The path leads through objects only and ends on an array. */
  predicate EndsOnArray(v: Value, parts: seq<string>)
    decreases v
  {
    if parts == [] then v.Arr?
    else v.Obj? && parts[0] in v.fields && EndsOnArray(v.fields[parts[0]], parts[1..])
  }

  /** The path meets an array on the way or at its end. */
  predicate MeetsArray(v: Value, parts: seq<string>)
    decreases v
  {
    v.Arr? || (parts != [] && v.Obj? && parts[0] in v.fields && MeetsArray(v.fields[parts[0]], parts[1..]))
  }

  /** A lookup returns exactly the values reached: all of them as a list when the path meets an
      array, the single one otherwise; it fails exactly when nothing is reached, unless the path
      ends on an (empty) array. */
  lemma {:induction false} ResolveReturnsReached(v: Value, parts: seq<string>)
    ensures
      var r := Resolve(v, parts);
      && (r.NotFound? <==> Reached(v, parts) == [] && !EndsOnArray(v, parts))
      && (r.Found? ==> r.multi == MeetsArray(v, parts))
      && (r.Found? ==> if r.multi then r.value == Arr(Reached(v, parts)) else Reached(v, parts) == [r.value])
    decreases v, 1
  {
    if parts == [] {
    } else {
      match v
      case Obj(fields) => if parts[0] in fields { ResolveReturnsReached(fields[parts[0]], parts[1..]); }
      case Arr(elems) => FanOutReturnsReached(elems, parts);
      case Scalar(_) =>
    }
  }

  lemma {:induction false} FanOutReturnsReached(elems: seq<Value>, parts: seq<string>)
    requires parts != []
    ensures FanOut(elems, parts) == ReachedFrom(elems, parts)
    decreases elems, 0
  {
    if elems == [] {
    } else {
      var n := |elems| - 1;
      FanOutReturnsReached(elems[..n], parts);
      ResolveReturnsReached(elems[n], parts);
    }
  }

  // -------------------------------------------------------------------- flatten

  /** The styles differ in the strings around a key. */
  datatype Style = Style(before: string, middle: string, after: string)

  const DOT_STYLE: Style := Style("", ".", "")

  function JoinKey(top: bool, prefix: string, sub: string, style: Style): string {
    if top then (if prefix == "" then sub else prefix + sub)
    else prefix + style.before + style.middle + sub + style.after
  }

  /** Elements keyed by their index. */
  function Indexed(elems: seq<Value>): (r: map<string, Value>)
    ensures forall k :: k in r ==> r[k] in elems
  {
    if elems == [] then map[]
    else Indexed(elems[..|elems| - 1])[Itoa(|elems| - 1) := elems[|elems| - 1]]
  }

  /** An array's keys are its indices, each naming its own element. */
  lemma {:induction false} IndexedAt(elems: seq<Value>, i: nat)
    requires i < |elems|
    ensures Itoa(i) in Indexed(elems) && Indexed(elems)[Itoa(i)] == elems[i]
  {
    var last := |elems| - 1;
    if i == last {
    } else {
      IndexedAt(elems[..last], i);
      ItoaParses(i);
      ItoaParses(last);
    }
  }

  lemma {:induction false} IndexedOnly(elems: seq<Value>, k: string)
    requires k in Indexed(elems)
    ensures exists i: nat :: i < |elems| && k == Itoa(i)
  {
    var last := |elems| - 1;
    if k == Itoa(last) {
    } else {
      IndexedOnly(elems[..last], k);
    }
  }

  /** The named children flatten visits: an object's fields, an array's elements by index. */
  function Children(v: Value): (r: map<string, Value>)
    ensures forall k :: k in r ==> r[k] < v
  {
    match v
    case Scalar(_) => map[]
    case Obj(fields) => fields
    case Arr(elems) => Indexed(elems)
  }

  /** Paths of keys from a value down to its scalars. */
  function LeafPaths(v: Value): set<seq<string>>
    decreases v
  {
    if v.Scalar? then {[]}
    else set k, p | k in Children(v) && p in LeafPaths(Children(v)[k]) :: [k] + p
  }

  lemma LeafStep(v: Value, path: seq<string>)
    requires path in LeafPaths(v) && !v.Scalar?
    ensures path != [] && path[0] in Children(v) && path[1..] in LeafPaths(Children(v)[path[0]])
  {
  }

  function LeafAt(v: Value, path: seq<string>): Value
    requires path in LeafPaths(v)
    decreases v
  {
    if v.Scalar? then v
    else
      LeafStep(v, path);
      LeafAt(Children(v)[path[0]], path[1..])
  }

  /** The flat key of a path of keys. */
  function FlatKey(top: bool, prefix: string, path: seq<string>, style: Style): string
    decreases |path|
  {
    if path == [] then prefix
    else FlatKey(false, JoinKey(top, prefix, path[0], style), path[1..], style)
  }

  predicate DotFree(v: Value)
    decreases v
  {
    forall k :: k in Children(v) ==> DOT !in k && DotFree(Children(v)[k])
  }

  predicate DotFreePath(path: seq<string>) {
    forall i :: 0 <= i < |path| ==> DOT !in path[i]
  }

  lemma {:induction false} PathsAreDotFree(v: Value, path: seq<string>)
    requires DotFree(v) && path in LeafPaths(v)
    ensures DotFreePath(path)
    decreases v
  {
    if v.Scalar? {
    } else {
      LeafStep(v, path);
      PathsAreDotFree(Children(v)[path[0]], path[1..]);
      assert path == [path[0]] + path[1..];
    }
  }

  /** The keys of a path behind the first, each between the strings of the style. */
  function Styled(path: seq<string>, style: Style): string {
    if path == [] then ""
    else style.before + style.middle + path[0] + style.after + Styled(path[1..], style)
  }

  lemma {:induction false} NestedKeyIsStyled(prefix: string, path: seq<string>, style: Style)
    ensures FlatKey(false, prefix, path, style) == prefix + Styled(path, style)
    decreases |path|
  {
    if path == [] {
    } else {
      NestedKeyIsStyled(JoinKey(false, prefix, path[0], style), path[1..], style);
      Regroup(prefix, style.before, style.middle, path[0], style.after, Styled(path[1..], style));
    }
  }

  lemma Regroup(a: string, b: string, c: string, d: string, e: string, f: string)
    ensures a + b + c + d + e + f == a + (b + c + d + e + f)
  {
  }

  /** In any style a flat key is the prefix, the first key as it is, and then every further key between
      the strings of the style: "a[b][c]" in the style of Rails. */
  lemma FlatKeyIsStyled(prefix: string, path: seq<string>, style: Style)
    requires path != []
    ensures FlatKey(true, prefix, path, style) == prefix + path[0] + Styled(path[1..], style)
  {
    assert prefix == "" ==> prefix + path[0] == path[0];
    NestedKeyIsStyled(JoinKey(true, prefix, path[0], style), path[1..], style);
  }

  /** In dot style a flat key is the path joined with dots, after the prefix. */
  lemma {:induction false} FlatKeyIsJoin(top: bool, prefix: string, path: seq<string>)
    requires path != []
    ensures FlatKey(top, prefix, path, DOT_STYLE) == (if top then prefix else prefix + [DOT]) + Join(path, DOT)
    decreases |path|
  {
    var key := JoinKey(top, prefix, path[0], DOT_STYLE);
    assert key == (if top then prefix else prefix + [DOT]) + path[0];
    if |path| > 1 {
      FlatKeyIsJoin(false, key, path[1..]);
    } else {
      assert FlatKey(false, key, path[1..], DOT_STYLE) == key;
    }
  }

  /** So different paths never share a key. */
  lemma FlatKeyIsInjective(top: bool, prefix: string, p: seq<string>, q: seq<string>)
    requires p != [] && q != [] && DotFreePath(p) && DotFreePath(q)
    requires FlatKey(top, prefix, p, DOT_STYLE) == FlatKey(top, prefix, q, DOT_STYLE)
    ensures p == q
  {
    FlatKeyIsJoin(top, prefix, p);
    FlatKeyIsJoin(top, prefix, q);
    var head := if top then prefix else prefix + [DOT];
    assert (head + Join(p, DOT))[|head|..] == Join(p, DOT) && (head + Join(q, DOT))[|head|..] == Join(q, DOT);
    SplitJoin(p, DOT);
    SplitJoin(q, DOT);
  }

  function KeySet(top: bool, prefix: string, paths: set<seq<string>>, style: Style): set<string> {
    set p | p in paths :: FlatKey(top, prefix, p, style)
  }

  /** out' has these keys more than out, and every other entry of out unchanged. */
  ghost predicate Extends(out: map<string, Value>, out': map<string, Value>, keys: set<string>) {
    && out'.Keys == out.Keys + keys
    && (forall key :: key in out && key !in keys ==> key in out' && out'[key] == out[key])
  }

  lemma ExtendsTwice(out: map<string, Value>, mid: map<string, Value>, out': map<string, Value>, a: set<string>,
                     b: set<string>)
    requires Extends(out, mid, a) && Extends(mid, out', b)
    ensures Extends(out, out', a + b)
  {
  }

  /** The entry under this key is a leaf of v whose path has this key. */
  ghost predicate IsLeafEntry(out: map<string, Value>, key: string, top: bool, prefix: string, v: Value,
                              paths: set<seq<string>>, style: Style)
    requires paths <= LeafPaths(v)
  {
    key in out && exists p :: p in paths && FlatKey(top, prefix, p, style) == key && out[key] == LeafAt(v, p)
  }

  /** out' is out with exactly the keys of these paths of v added, each holding its leaf (one of
      its leaves, should paths share a key). */
  ghost predicate Adds(out: map<string, Value>, out': map<string, Value>, top: bool, prefix: string, v: Value,
                       paths: set<seq<string>>, style: Style)
    requires paths <= LeafPaths(v)
  {
    && Extends(out, out', KeySet(top, prefix, paths, style))
    && (forall key :: key in KeySet(top, prefix, paths, style) ==> IsLeafEntry(out', key, top, prefix, v, paths, style))
  }

  function PathsUnder(v: Value, done: set<string>): set<seq<string>> {
    set p | p in LeafPaths(v) && p != [] && p[0] in done
  }

  /** The paths of one more child are those of the child, one level down. */
  lemma ChildPaths(v: Value, k: string, path: seq<string>)
    requires !v.Scalar? && k in Children(v)
    ensures path in LeafPaths(v) && path != [] && path[0] == k <==>
      path != [] && path[0] == k && path[1..] in LeafPaths(Children(v)[k])
  {
    if path in LeafPaths(v) && path != [] && path[0] == k {
      LeafStep(v, path);
    }
    if path != [] && path[0] == k && path[1..] in LeafPaths(Children(v)[k]) {
      assert path == [k] + path[1..];
    }
  }

  /** Keys under a child, seen from the parent or from the child. */
  lemma ChildKey(top: bool, prefix: string, k: string, p: seq<string>, style: Style)
    ensures FlatKey(top, prefix, [k] + p, style) == FlatKey(false, JoinKey(top, prefix, k, style), p, style)
  {
  }

  /** Emitting one more child extends what has been added by its leaves. */
  lemma AddsChild(out: map<string, Value>, mid: map<string, Value>, out': map<string, Value>,
                  top: bool, prefix: string, v: Value, done: set<string>, k: string, style: Style)
    requires !v.Scalar? && k in Children(v)
    requires Adds(out, mid, top, prefix, v, PathsUnder(v, done), style)
    requires Adds(mid, out', false, JoinKey(top, prefix, k, style), Children(v)[k], LeafPaths(Children(v)[k]), style)
    ensures Adds(out, out', top, prefix, v, PathsUnder(v, done + {k}), style)
  {
    var before, added := KeySet(top, prefix, PathsUnder(v, done), style),
                         KeySet(false, JoinKey(top, prefix, k, style), LeafPaths(Children(v)[k]), style);
    KeysSplit(top, prefix, v, done, k, style);
    ExtendsTwice(out, mid, out', before, added);
    forall key | key in before + added
      ensures IsLeafEntry(out', key, top, prefix, v, PathsUnder(v, done + {k}), style)
    {
      if key in added {
        EntryOfNewChild(out', key, top, prefix, v, done, k, style);
      } else {
        EntryStays(mid, out', key, top, prefix, v, done, k, style);
      }
    }
  }

  lemma EntryStays(mid: map<string, Value>, out': map<string, Value>, key: string,
                   top: bool, prefix: string, v: Value, done: set<string>, k: string, style: Style)
    requires key in out' && IsLeafEntry(mid, key, top, prefix, v, PathsUnder(v, done), style) && out'[key] == mid[key]
    ensures IsLeafEntry(out', key, top, prefix, v, PathsUnder(v, done + {k}), style)
  {
  }

  lemma EntryOfNewChild(out: map<string, Value>, key: string,
                        top: bool, prefix: string, v: Value, done: set<string>, k: string, style: Style)
    requires !v.Scalar? && k in Children(v)
    requires IsLeafEntry(out, key, false, JoinKey(top, prefix, k, style), Children(v)[k], LeafPaths(Children(v)[k]),
                         style)
    ensures IsLeafEntry(out, key, top, prefix, v, PathsUnder(v, done + {k}), style)
  {
    var child := Children(v)[k];
    var newKey := JoinKey(top, prefix, k, style);
    var q :| q in LeafPaths(child) && FlatKey(false, newKey, q, style) == key && out[key] == LeafAt(child, q);
    var p := [k] + q;
    assert p[0] == k && p[1..] == q;
    ChildPaths(v, k, p);
    ChildKey(top, prefix, k, q, style);
    assert p in PathsUnder(v, done + {k});
  }

  lemma KeysSplit(top: bool, prefix: string, v: Value, done: set<string>, k: string, style: Style)
    requires !v.Scalar? && k in Children(v)
    ensures KeySet(top, prefix, PathsUnder(v, done + {k}), style)
         == KeySet(top, prefix, PathsUnder(v, done), style)
          + KeySet(false, JoinKey(top, prefix, k, style), LeafPaths(Children(v)[k]), style)
  {
    var newKey, added := JoinKey(top, prefix, k, style), LeafPaths(Children(v)[k]);
    forall p | p in PathsUnder(v, done + {k})
      ensures FlatKey(top, prefix, p, style)
              in KeySet(top, prefix, PathsUnder(v, done), style) + KeySet(false, newKey, added, style)
    {
      if p[0] == k {
        ChildPaths(v, k, p);
        assert p == [k] + p[1..];
        ChildKey(top, prefix, k, p[1..], style);
      } else {
        assert p in PathsUnder(v, done);
      }
    }
    forall q | q in added
      ensures FlatKey(false, newKey, q, style) in KeySet(top, prefix, PathsUnder(v, done + {k}), style)
    {
      ChildKey(top, prefix, k, q, style);
      assert ([k] + q)[0] == k && ([k] + q)[1..] == q;
      ChildPaths(v, k, [k] + q);
      assert [k] + q in PathsUnder(v, done + {k});
    }
    forall p | p in PathsUnder(v, done)
      ensures FlatKey(top, prefix, p, style) in KeySet(top, prefix, PathsUnder(v, done + {k}), style)
    {
      assert p in PathsUnder(v, done + {k});
    }
  }

  lemma AllPathsUnder(v: Value)
    requires !v.Scalar?
    ensures PathsUnder(v, Children(v).Keys) == LeafPaths(v)
  {
  }

  /** The map that the recursive calls share. */
  class Sink {
    var out: map<string, Value>

    constructor ()
      ensures out == map[]
    {
      out := map[];
    }

    /** One child: a scalar is stored under its key, anything else flattened below it. */
    method Emit(top: bool, prefix: string, k: string, child: Value, style: Style)
      modifies this
      ensures Adds(old(out), out, false, JoinKey(top, prefix, k, style), child, LeafPaths(child), style)
      decreases child, 2
    {
      var newKey := JoinKey(top, prefix, k, style);
      if child.Scalar? {
        out := out[newKey := child];
        assert [] in LeafPaths(child) && FlatKey(false, newKey, [], style) == newKey;
        assert KeySet(false, newKey, LeafPaths(child), style) == {newKey};
      } else {
        var _ := FlattenInto(false, child, newKey, style);
      }
    }

    /** Visits the children in any order; a bare scalar is not valid input. */
    method FlattenInto(top: bool, nested: Value, prefix: string, style: Style) returns (ok: bool)
      modifies this
      ensures ok == !nested.Scalar?
      ensures if ok then Adds(old(out), out, top, prefix, nested, LeafPaths(nested), style) else out == old(out)
      decreases nested, 1
    {
      if nested.Scalar? {
        return false;
      }
      var children := Children(nested);
      var done := {};
      assert PathsUnder(nested, {}) == {};
      while children.Keys - done != {}
        invariant done <= children.Keys
        invariant Adds(old(out), out, top, prefix, nested, PathsUnder(nested, done), style)
        decreases children.Keys - done
      {
        var k :| k in children.Keys - done;
        ghost var mid := out;
        Emit(top, prefix, k, children[k], style);
        AddsChild(old(out), mid, out, top, prefix, nested, done, k, style);
        done := done + {k};
      }
      assert done == children.Keys by {
        forall k | k in children.Keys ensures k in done {
          assert k !in children.Keys - done;
        }
      }
      AllPathsUnder(nested);
      return true;
    }
  }

  /** out is a flattening of v: the keys of its leaves, each with its leaf, and nothing else. */
  ghost predicate IsFlattening(out: map<string, Value>, prefix: string, v: Value, style: Style) {
    Adds(map[], out, true, prefix, v, LeafPaths(v), style)
  }

  method FlattenMap(nested: map<string, Value>, prefix: string, style: Style) returns (out: map<string, Value>)
    ensures IsFlattening(out, prefix, Obj(nested), style)
  {
    var sink := new Sink();
    var _ := sink.FlattenInto(true, Obj(nested), prefix, style);
    out := sink.out;
  }

  // --------------------------------------------------- what a flattening promises

  /** Distinct keys for distinct paths: as many keys as paths. */
  lemma {:induction false} KeySetSize(prefix: string, paths: set<seq<string>>)
    requires forall p :: p in paths ==> p != [] && DotFreePath(p)
    ensures |KeySet(true, prefix, paths, DOT_STYLE)| == |paths|
    decreases |paths|
  {
    if paths == {} {
    } else {
      var p :| p in paths;
      var rest := paths - {p};
      KeySetSize(prefix, rest);
      var key := FlatKey(true, prefix, p, DOT_STYLE);
      forall q | q in rest ensures FlatKey(true, prefix, q, DOT_STYLE) != key {
        if FlatKey(true, prefix, q, DOT_STYLE) == key {
          FlatKeyIsInjective(true, prefix, p, q);
        }
      }
      assert KeySet(true, prefix, paths, DOT_STYLE) == KeySet(true, prefix, rest, DOT_STYLE) + {key};
    }
  }

  lemma LeafKeyCount(prefix: string, v: Value)
    requires !v.Scalar? && DotFree(v)
    ensures |KeySet(true, prefix, LeafPaths(v), DOT_STYLE)| == |LeafPaths(v)|
  {
    forall p | p in LeafPaths(v) ensures p != [] && DotFreePath(p) {
      LeafStep(v, p);
      PathsAreDotFree(v, p);
    }
    KeySetSize(prefix, LeafPaths(v));
  }

  /** One entry per leaf. */
  lemma OneEntryPerLeaf(out: map<string, Value>, prefix: string, v: Value)
    requires !v.Scalar? && DotFree(v) && IsFlattening(out, prefix, v, DOT_STYLE)
    ensures |out| == |LeafPaths(v)|
  {
    LeafKeyCount(prefix, v);
    assert out.Keys == KeySet(true, prefix, LeafPaths(v), DOT_STYLE);
  }

  /** Every leaf is found under its own key. */
  lemma EveryLeafIsStored(out: map<string, Value>, prefix: string, v: Value, path: seq<string>)
    requires !v.Scalar? && DotFree(v) && IsFlattening(out, prefix, v, DOT_STYLE) && path in LeafPaths(v)
    ensures var key := FlatKey(true, prefix, path, DOT_STYLE); key in out && out[key] == LeafAt(v, path)
  {
    var key := FlatKey(true, prefix, path, DOT_STYLE);
    assert IsLeafEntry(out, key, true, prefix, v, LeafPaths(v), DOT_STYLE) by {
      assert key in KeySet(true, prefix, LeafPaths(v), DOT_STYLE);
    }
    var p :| p in LeafPaths(v) && FlatKey(true, prefix, p, DOT_STYLE) == key && out[key] == LeafAt(v, p);
    LeafStep(v, p);
    LeafStep(v, path);
    PathsAreDotFree(v, p);
    PathsAreDotFree(v, path);
    FlatKeyIsInjective(true, prefix, p, path);
  }

  /** Whatever the map iteration order, the result is the same. */
  lemma FlatteningIsUnique(a: map<string, Value>, b: map<string, Value>, prefix: string, v: Value)
    requires !v.Scalar? && DotFree(v)
    requires IsFlattening(a, prefix, v, DOT_STYLE) && IsFlattening(b, prefix, v, DOT_STYLE)
    ensures a == b
  {
    assert a.Keys == b.Keys;
    forall key | key in a ensures a[key] == b[key] {
      var p := PathOfKey(a, prefix, v, key);
      EveryLeafIsStored(a, prefix, v, p);
      EveryLeafIsStored(b, prefix, v, p);
    }
  }

  lemma PathOfKey(out: map<string, Value>, prefix: string, v: Value, key: string) returns (p: seq<string>)
    requires IsFlattening(out, prefix, v, DOT_STYLE) && key in out
    ensures p in LeafPaths(v) && key == FlatKey(true, prefix, p, DOT_STYLE)
  {
    assert key in KeySet(true, prefix, LeafPaths(v), DOT_STYLE);
    p :| p in LeafPaths(v) && key == FlatKey(true, prefix, p, DOT_STYLE);
  }

  /** Following a leaf's own path arrives at it when no array is on the way. */
  lemma {:induction false} LeafIsResolved(v: Value, path: seq<string>)
    requires path in LeafPaths(v) && !MeetsArray(v, path)
    ensures Resolve(v, path) == Found(LeafAt(v, path), false)
    decreases v
  {
    if v.Scalar? {
      assert path == [];
    } else {
      LeafStep(v, path);
      LeafIsResolved(Children(v)[path[0]], path[1..]);
    }
  }

  lemma JoinIsEmptyIff(path: seq<string>)
    requires path != []
    ensures Join(path, DOT) == "" <==> path == [""]
  {
  }

  /** Looking a flat key up returns exactly its leaf, if and only if the leaf is not below an
      array and its key is not the empty string. */
  lemma LookupFindsLeafIff(v: Value, path: seq<string>)
    requires v.Obj? && DotFree(v) && path in LeafPaths(v)
    ensures GetByPath(Some(v), FlatKey(true, "", path, DOT_STYLE)) == Ok(LeafAt(v, path), false) <==>
      path != [""] && !MeetsArray(v, path)
  {
    LeafStep(v, path);
    PathsAreDotFree(v, path);
    FlatKeyIsJoin(true, "", path);
    var key := FlatKey(true, "", path, DOT_STYLE);
    assert key == Join(path, DOT);
    JoinIsEmptyIff(path);
    SplitJoin(path, DOT);
    ResolveReturnsReached(v, path);
    if !MeetsArray(v, path) {
      LeafIsResolved(v, path);
    }
  }

  predicate ArrayFree(v: Value)
    decreases v
  {
    !v.Arr? && (v.Obj? ==> forall k :: k in v.fields ==> ArrayFree(v.fields[k]))
  }

  predicate EmptyKeyFree(v: Value)
    decreases v
  {
    forall k :: k in Children(v) ==> k != "" && EmptyKeyFree(Children(v)[k])
  }

  lemma {:induction false} ArrayFreeMeetsNone(v: Value, path: seq<string>)
    requires ArrayFree(v)
    ensures !MeetsArray(v, path)
    decreases v
  {
    if path == [] || !v.Obj? || path[0] !in v.fields {
    } else {
      ArrayFreeMeetsNone(v.fields[path[0]], path[1..]);
    }
  }

  /** Flatten and look up: on an array-free tree with non-empty, dot-free keys every entry of the
      flattening is what its own key looks up, and every leaf of the tree is among the entries. */
  lemma EveryEntryLooksUp(out: map<string, Value>, v: Value)
    requires v.Obj? && ArrayFree(v) && DotFree(v) && EmptyKeyFree(v)
    requires IsFlattening(out, "", v, DOT_STYLE)
    ensures forall key :: key in out ==> GetByPath(Some(v), key) == Ok(out[key], false)
    ensures forall path :: path in LeafPaths(v) ==> Join(path, DOT) in out && out[Join(path, DOT)] == LeafAt(v, path)
  {
    forall key | key in out ensures GetByPath(Some(v), key) == Ok(out[key], false) {
      var p := PathOfKey(out, "", v, key);
      LeafStep(v, p);
      EveryLeafIsStored(out, "", v, p);
      ArrayFreeMeetsNone(v, p);
      LookupFindsLeafIff(v, p);
    }
    forall p | p in LeafPaths(v) ensures Join(p, DOT) in out && out[Join(p, DOT)] == LeafAt(v, p) {
      LeafStep(v, p);
      EveryLeafIsStored(out, "", v, p);
      FlatKeyIsJoin(true, "", p);
      assert FlatKey(true, "", p, DOT_STYLE) == Join(p, DOT);
    }
  }
}

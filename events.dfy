/**
 An event's fields, with the dotted-path get and put that the processor uses.

 The fields are a map keyed by the full dotted path. How a dotted path is walked
 segment by segment is kept abstract: an `Access` says, for given fields and a
 path, whether the walk runs into something that is not a map on the way (a read
 that fails for a reason other than a missing key) and whether a put cannot reach
 its target (a write that fails).
 */
module Events {
  import opened Wrappers

  /** The dynamically typed values an event field can hold. */
  datatype Value =
    | Str(s: string)
    | Int(i: int)
    | Bool(b: bool)
    | Null
    | List(items: seq<Value>)
    | Obj(fields: map<string, Value>)

  type Fields = map<string, Value>

  /** Why a lookup failed: the key is absent, or the walk met a value that is not a map. */
  datatype GetError = KeyNotFound | NotMapType

  /**
   The dotted-path traversal, left abstract. `readFails` and `writeFails` are
   arbitrary predicates, so they over-approximate the real walk: they allow, for
   instance, a read to fail for a path stored as-is, which the real lookup never
   does. Every lemma holds for any choice of them.
   */
  datatype Access = Access(readFails: (Fields, string) -> bool, writeFails: (Fields, string) -> bool)

  /** Looking a path up: a traversal error first, then a missing key, else the stored value. */
  function GetValue(acc: Access, f: Fields, path: string): (r: Result<Value, GetError>)
    ensures r.Success? <==> !acc.readFails(f, path) && path in f
    ensures r.Success? ==> r.value == f[path]
    ensures r == Failure(KeyNotFound) <==> !acc.readFails(f, path) && path !in f
  {
    if acc.readFails(f, path) then Failure(NotMapType)
    else if path in f then Success(f[path])
    else Failure(KeyNotFound)
  }

  /** Putting a value at a path: either it cannot be written, or it overwrites (or adds) that one path. */
  function Put(acc: Access, f: Fields, path: string, v: Value): (r: Option<Fields>)
    ensures r.Some? <==> !acc.writeFails(f, path)
    ensures r.Some? ==> path in r.value && r.value[path] == v && SameExcept(f, r.value, {path})
  {
    if acc.writeFails(f, path) then None else Some(f[path := v])
  }

  /** `f` and `g` say the same about path `p`: both lack it or both hold the same value. */
  ghost predicate Agree(f: Fields, g: Fields, p: string)
  {
    (p in f <==> p in g) && (p in f ==> f[p] == g[p])
  }

  /** `f` and `g` differ at most at the paths in `ps`. */
  ghost predicate SameExcept(f: Fields, g: Fields, ps: set<string>)
  {
    forall p :: p !in ps ==> Agree(f, g, p)
  }

  lemma SameExceptTrans(f: Fields, g: Fields, h: Fields, ps: set<string>, qs: set<string>, rs: set<string>)
    requires SameExcept(f, g, ps) && SameExcept(g, h, qs) && ps + qs <= rs
    ensures SameExcept(f, h, rs)
  {
    forall p | p !in rs ensures Agree(f, h, p) {
      assert Agree(f, g, p) && Agree(g, h, p);
    }
  }

  /** An event whose fields are updated in place. */
  class Event {
    var fields: Fields

    constructor (fields: Fields)
      ensures this.fields == fields
    {
      this.fields := fields;
    }

    /** Puts `v` at `path`, changing nothing when the path cannot be written. */
    method PutValue(acc: Access, path: string, v: Value) returns (ok: bool)
      modifies this
      ensures ok <==> Put(acc, old(fields), path, v).Some?
      ensures fields == if ok then Put(acc, old(fields), path, v).value else old(fields)
    {
      var r := Put(acc, fields, path, v);
      ok := r.Some?;
      if ok {
        fields := r.value;
      }
    }
  }
}

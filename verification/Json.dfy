/** JSON values as the services exchange them, and the deep merge that both
    JsonObject.mergeIn and the store's partial update perform. */
module Json {

  datatype Option<+T> = None | Some(value: T)

  datatype Result<+T, +E> = Ok(value: T) | Err(error: E) {
    predicate IsFailure() {
      Err?
    }

    function PropagateFailure<U>(): Result<U, E>
      requires Err?
    {
      Err(error)
    }

    function Extract(): T
      requires Ok?
    {
      value
    }
  }

  datatype Json =
    | JNull
    | JBool(b: bool)
    | JNum(lexeme: string)
    | JStr(s: string)
    | JArr(elems: seq<Json>)
    | JObj(fields: map<string, Json>)

  type Object = map<string, Json>

  /** The value under a key, with an absent key read as null. */
  function Get(o: Object, key: string): Json {
    if key in o then o[key] else JNull
  }

  /** JsonObject.getString: null for an absent or null value; a value that is not a string
      is printed, which `text` stands for. */
  function GetString(o: Object, key: string, text: Json -> string): Option<string> {
    match Get(o, key)
    case JNull => None
    case JStr(s) => Some(s)
    case v => Some(text(v))
  }

  /** Deep merge: nested objects are merged, every other value of b replaces the one in a. */
  function MergeIn(a: Object, b: Object): Object
    decreases JObj(b)
  {
    map k | k in a.Keys + b.Keys ::
      if k !in b then a[k]
      else if k in a && a[k].JObj? && b[k].JObj? then JObj(MergeIn(a[k].fields, b[k].fields))
      else b[k]
  }

  /** Merging the same object a second time changes nothing. */
  lemma {:induction false} MergeTwice(a: Object, b: Object)
    ensures MergeIn(MergeIn(a, b), b) == MergeIn(a, b)
    decreases JObj(b)
  {
    var once := MergeIn(a, b);
    forall k | k in b
      ensures MergeIn(once, b)[k] == once[k]
    {
      if b[k].JObj? {
        if k in a && a[k].JObj? {
          MergeTwice(a[k].fields, b[k].fields);
        } else {
          MergeSelf(b[k].fields);
        }
      }
    }
  }

  lemma {:induction false} MergeSelf(b: Object)
    ensures MergeIn(b, b) == b
    decreases JObj(b)
  {
    forall k | k in b && b[k].JObj?
      ensures MergeIn(b, b)[k] == b[k]
    {
      MergeSelf(b[k].fields);
    }
  }

  /** The value at a path of keys through nested objects. */
  function At(o: Object, path: seq<string>): Option<Json>
    requires path != []
    decreases |path|
  {
    if path[0] !in o then None
    else if |path| == 1 then Some(o[path[0]])
    else if o[path[0]].JObj? then At(o[path[0]].fields, path[1..])
    else None
  }

  /** The object says nothing about the path: following it, a key is missing from a nested object. */
  predicate Silent(o: Object, path: seq<string>)
    requires path != []
    decreases |path|
  {
    path[0] !in o || (|path| > 1 && o[path[0]].JObj? && Silent(o[path[0]].fields, path[1..]))
  }

  /** A merge, path by path and however deep: where the second object is silent the first one's value stays,
      where it holds an object the merge holds one too, and everywhere else its own value, or its lack of
      one, wins. */
  lemma {:induction false} MergedAt(a: Object, b: Object, path: seq<string>)
    requires path != []
    ensures Silent(b, path) ==> At(MergeIn(a, b), path) == At(a, path)
    ensures !Silent(b, path) && (At(b, path).None? || !At(b, path).value.JObj?) ==>
              At(MergeIn(a, b), path) == At(b, path)
    ensures At(b, path).Some? && At(b, path).value.JObj? ==>
              At(MergeIn(a, b), path).Some? && At(MergeIn(a, b), path).value.JObj?
    decreases |path|
  {
    var k := path[0];
    if k in a && k in b && a[k].JObj? && b[k].JObj? && |path| > 1 {
      MergedAt(a[k].fields, b[k].fields, path[1..]);
    } else if k in b && b[k].JObj? && |path| > 1 && Silent(b, path) {
      SilentHasNothing(b[k].fields, path[1..]);
    }
  }

  lemma {:induction false} SilentHasNothing(o: Object, path: seq<string>)
    requires path != [] && Silent(o, path)
    ensures At(o, path) == None
    decreases |path|
  {
    if path[0] in o {
      SilentHasNothing(o[path[0]].fields, path[1..]);
    }
  }

  /** A put of a reference that may be null. */
  function StrJson(v: Option<string>): Json {
    if v.Some? then JStr(v.value) else JNull
  }

  function ListJson(v: Option<seq<Json>>): Json {
    if v.Some? then JArr(v.value) else JNull
  }

  function BoolJson(v: Option<bool>): Json {
    if v.Some? then JBool(v.value) else JNull
  }
}
